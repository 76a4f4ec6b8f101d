/** Any run of the operations on path names: the file system stays sound, its working directory
    stays a directory, and the names lead where a map from names to contents would have them lead. */
module Runs {
  import opened Bytes
  import opened Strings
  import opened FatTable
  import opened Partitions
  import opened Allocation
  import opened LongNames
  import opened Trees
  import opened Volumes
  import opened FullVolume
  import opened Rechaining
  import opened Rewriting
  import opened Leaks
  import opened Views
  import opened Paths
  import opened Commands

  /** One call of an operation with its arguments. */
  datatype Request =
    | MakeFile(path: seq<byte>, name: Name, sfn: seq<byte>, checksum: byte, stack: seq<word>)
    | MakeFolder(path: seq<byte>, name: Name, sfn: seq<byte>, checksum: byte, stack: seq<word>)
    | DeleteFile(path: seq<byte>, name: Name)
    | DeleteFolder(path: seq<byte>, name: Name)
    | Write(path: seq<byte>, name: Name, data: seq<byte>, rewrite: bool, heapOk: bool)
    | Read(path: seq<byte>, name: Name)
    | Go(path: seq<byte>)

  datatype Response = Response(answer: Answer, out: seq<byte>)

  /** All that a partition remembers. */
  datatype State = State(disk: seq<Sector>, free: nat, cluster: nat, text: seq<byte>)

  /** The state holds `t`, and its working directory is the one at `cp`. */
  ghost predicate Consistent(g: Geometry, st: State, t: Node, cp: seq<Name>) {
    && Mountable(g, |st.disk|) && Mirrored(g, st.disk) && U32(st.disk[g.infoSector], FREE_COUNT_AT) == st.free
    && VolumeOk(g, FatView(g, st.disk), st.disk[g.DataStart()..], st.free, t)
    && At(t, cp).Some? && FirstOf(At(t, cp).value) == st.cluster && Plain(cp) && st.text == PathText(cp)
  }

  // ---- what each request needs, and what it does ----

  /** The write goes through or is refused, and keeps a file system. */
  ghost predicate Safe(g: Geometry, disk: seq<Sector>, f: seq<nat>, free: nat, t: Node, cp: seq<Name>, path: seq<byte>,
                       name: Name, data: seq<byte>, rewrite: bool, heapOk: bool) {
    && g.sectorsPerCluster > 0 && CanWrite(g, free, t, cp, path, name, |data|, rewrite)
    && match Target(t, cp, path)
       case None => true
       case Some(dir) =>
         forall was: seq<byte> :: View(t, dir + [name]) == Some(Bytes(was)) ==>
           var now := NowBytes(was, data, rewrite);
           && Keeps(was, now)
           && (was == [] ==> Affordable(0, ClustersFor(g, |now|), free, heapOk) || (free == 0 && Spared(g, disk)))
           && forall f', s, j: nat :: Regrown(g, f, f', t, dir, name, s, j, data, rewrite) ==>
             Fine(g, s, was, data, rewrite)
  }

  /** There is room for the new directory's entry, but no cluster for it. */
  ghost predicate RunsOut(g: Geometry, d: seq<Sector>, free: nat, t: Node, cp: seq<Name>, path: seq<byte>, name: Name) {
    match Target(t, cp, path)
    case None => false
    case Some(dir) => View(t, dir + [name]) == None && HasRoom(g, d, t, cp, path, name) && free == 0
  }

  /** What a request asks of its caller, in a state that holds `t`. */
  ghost predicate Allowed(g: Geometry, st: State, t: Node, cp: seq<Name>, r: Request)
    requires g.Holds(|st.disk|)
  {
    var f, d := FatView(g, st.disk), st.disk[g.DataStart()..];
    match r
    case MakeFile(path, name, sfn, _, stack) =>
      && 0 in path && 0 !in name && name != [] && Creatable(g, d, t, cp, CStr(path), name, stack, sfn)
      && LandsRight(g, d, t, cp, CStr(path), name)
    case MakeFolder(path, name, sfn, _, stack) =>
      && 0 in path && 0 !in name && name != [] && Creatable(g, d, t, cp, CStr(path), name, stack, sfn)
      && LandsRight(g, d, t, cp, CStr(path), name) && !RunsOut(g, d, st.free, t, cp, CStr(path), name)
    case DeleteFile(path, name) =>
      && 0 in path && 0 !in name && !TakesCwd(t, cp, CStr(path), name)
      && NamesFitAt(g, d, t, cp, CStr(path), name) && !DeletesMoreAt(g, d, t, cp, CStr(path), name)
    case DeleteFolder(path, name) =>
      0 in path && 0 !in name && !TakesCwd(t, cp, CStr(path), name) && NoFileThere(t, cp, CStr(path), name)
    case Write(path, name, data, rewrite, heapOk) =>
      0 in path && 0 !in name && Safe(g, st.disk, f, st.free, t, cp, CStr(path), name, data, rewrite, heapOk)
    case Read(path, name) =>
      0 in path && 0 !in name
    case Go(path) =>
      0 in path && (Target(t, cp, CStr(path)).Some? ==> PathFits(PathText(cp), CStr(path)))
  }

  /** What a carried-out request does to the tree and the working directory. Whether there is room
      for it is decided by the state in which it is made. */
  ghost predicate Effect(g: Geometry, st: State, t: Node, cp: seq<Name>, r: Request, resp: Response, st': State,
                         t': Node, cp': seq<Name>)
    requires g.Holds(|st.disk|) && g.Holds(|st'.disk|)
  {
    && Bytewise(g, st, t, cp, r, resp.answer, st')
    && var d := st.disk[g.DataStart()..];
    match r
    case MakeFile(path, name, _, _, _) => cp' == cp && Made(g, d, t, cp, CStr(path), name, Bytes([]), resp.answer, t')
    case MakeFolder(path, name, _, _, _) => cp' == cp && Made(g, d, t, cp, CStr(path), name, Folder, resp.answer, t')
    case DeleteFile(path, name) => cp' == cp && DeletedAt(t, cp, CStr(path), name, resp.answer, t')
    case DeleteFolder(path, name) => cp' == cp && DeletedAt(t, cp, CStr(path), name, resp.answer, t')
    case Write(path, name, data, rewrite, heapOk) =>
      cp' == cp && Rewrote(g, st.free, heapOk, t, cp, CStr(path), name, data, rewrite, resp.answer, t')
    case Read(path, name) => cp' == cp && t' == t && ReadOut(t, cp, CStr(path), name, resp.answer, resp.out)
    case Go(path) =>
      && t' == t && (resp.answer == Done || resp.answer == InvalidPath)
      && if resp.answer == Done then Some(cp') == Target(t, cp, CStr(path))
         else cp' == cp && Target(t, cp, CStr(path)) == None
  }

  /** What a request does to the bytes of the drive: nothing if it only looks or is refused; else the
      entry in its directory is made, erased or updated as the commands say. */
  ghost predicate Bytewise(g: Geometry, st: State, t: Node, cp: seq<Name>, r: Request, a: Answer, st': State)
    requires g.Holds(|st.disk|) && g.Holds(|st'.disk|)
  {
    && (r.Read? || r.Go? || (!a.Done? && !a.NoRoom?) || (a.NoRoom? && !r.Write?) ==>
          st'.disk == st.disk && st'.free == st.free)
    && (r.Write? && a.NoRoom? ==> st'.free == st.free && (st'.disk == st.disk || st'.disk == Strayed(g, st.disk)))
    && (a.Done? ==>
          var d, d' := st.disk[g.DataStart()..], st'.disk[g.DataStart()..];
          match r
          case MakeFile(path, name, sfn, checksum, stack) =>
            FileMadeAt(g, d, d', t, cp, CStr(path), name, stack, checksum, sfn)
          case MakeFolder(path, name, sfn, checksum, stack) =>
            FolderMadeAt(g, FatView(g, st.disk), d, d', t, cp, CStr(path), name, stack, checksum, sfn)
          case DeleteFile(path, name) => ErasedAt(g, d, d', t, cp, CStr(path), name)
          case DeleteFolder(path, name) => ErasedAt(g, d, d', t, cp, CStr(path), name)
          case Write(path, name, data, rewrite, _) =>
            exists j, s, n :: EntryWrittenAt(g, d, d', t, cp, CStr(path), j, s, n)
          case _ => true)
  }

  /** What creating does that keeps the file system. */
  ghost predicate Made(g: Geometry, d: seq<Sector>, t: Node, cp: seq<Name>, path: seq<byte>, name: Name, what: What,
                       a: Answer, t': Node) {
    MadeAt(t, cp, path, name, what, HasRoom(g, d, t, cp, path, name), true, true, a, t')
  }

  /** What a write does that keeps the file system: all of it if the clusters suffice, else nothing. */
  ghost predicate Rewrote(g: Geometry, free: nat, heapOk: bool, t: Node, cp: seq<Name>, path: seq<byte>, name: Name,
                          data: seq<byte>, rewrite: bool, a: Answer, t': Node) {
    match Target(t, cp, path)
    case None => a == InvalidPath && t' == t
    case Some(dir) =>
      match View(t, dir + [name])
      case None => a == NotFound && t' == t
      case Some(what) =>
        && what.Bytes? && g.sectorsPerCluster > 0
        && var was, now := what.bytes, NowBytes(what.bytes, data, rewrite);
        if Affordable(ClustersFor(g, |was|), ClustersFor(g, |now|), free, heapOk) then
          a == Done && OneChange(t, t', dir + [name], Some(Bytes(now)))
        else a == NoRoom && t' == t
  }

  // ---- one request ----

  /** The partition's state as a value. */
  function StateOf(p: Partition): (st: State)
    reads p, p.hd.sectors
  {
    State(p.hd.sectors[..], p.freeClusterCount, p.currentWorkingDir, p.cwdString)
  }

  lemma ReadyIsConsistent(p: Partition, t: Node, cp: seq<Name>)
    requires Ready(p, t, cp)
    ensures Consistent(p.g, StateOf(p), t, cp) && p.g.Holds(|StateOf(p).disk|) && p.Mounted()
    ensures FatView(p.g, StateOf(p).disk) == p.Fat() && StateOf(p).disk[p.g.DataStart()..] == p.Data()
    ensures StateOf(p).disk == p.Disk()
    ensures StateOf(p).free == p.freeClusterCount && StateOf(p).text == p.cwdString == PathText(cp)
  {
  }

  lemma AllowedParts(g: Geometry, st: State, t: Node, cp: seq<Name>, r: Request)
    requires g.Holds(|st.disk|) && Allowed(g, st, t, cp, r)
    ensures 0 in r.path && (!r.Go? ==> 0 !in r.name)
    ensures r.MakeFile? || r.MakeFolder? ==>
      && r.name != [] && Creatable(g, st.disk[g.DataStart()..], t, cp, CStr(r.path), r.name, r.stack, r.sfn)
      && LandsRight(g, st.disk[g.DataStart()..], t, cp, CStr(r.path), r.name)
    ensures r.MakeFolder? ==> !RunsOut(g, st.disk[g.DataStart()..], st.free, t, cp, CStr(r.path), r.name)
    ensures r.DeleteFile? || r.DeleteFolder? ==> !TakesCwd(t, cp, CStr(r.path), r.name)
    ensures r.DeleteFile? ==>
      && NamesFitAt(g, st.disk[g.DataStart()..], t, cp, CStr(r.path), r.name)
      && !DeletesMoreAt(g, st.disk[g.DataStart()..], t, cp, CStr(r.path), r.name)
    ensures r.DeleteFolder? ==> NoFileThere(t, cp, CStr(r.path), r.name)
    ensures r.Write? ==>
      Safe(g, st.disk, FatView(g, st.disk), st.free, t, cp, CStr(r.path), r.name, r.data, r.rewrite, r.heapOk)
    ensures r.Go? ==> Target(t, cp, CStr(r.path)).Some? ==> PathFits(PathText(cp), CStr(r.path))
  {
  }

  /** A safe write is not one of those that damage the file system. */
  lemma SafeOutcome(g: Geometry, disk: seq<Sector>, f: seq<nat>, f': seq<nat>, free: nat, t: Node, cp: seq<Name>,
                    path: seq<byte>, name: Name, data: seq<byte>, rewrite: bool, heapOk: bool, a: Answer, t': Node,
                    was: seq<byte>, j: nat, s: seq<nat>)
    requires Safe(g, disk, f, free, t, cp, path, name, data, rewrite, heapOk)
    requires g.sectorsPerCluster > 0
    requires WrittenAt(g, free, heapOk, Fine(g, s, was, data, rewrite), t, cp, path, name, data, rewrite, a, t')
    requires a.Done? || a.NoRoom? || a.Damaged? ==>
      Target(t, cp, path).Some? && View(t, Target(t, cp, path).value + [name]) == Some(Bytes(was))
    requires a.Done? ==>
      Target(t, cp, path).Some? && Regrown(g, f, f', t, Target(t, cp, path).value, name, s, j, data, rewrite)
    ensures Rewrote(g, free, heapOk, t, cp, path, name, data, rewrite, a, t') && !a.Damaged? && !a.Exists?
    ensures a.Done? ==> Keeps(was, NowBytes(was, data, rewrite)) && Fine(g, s, was, data, rewrite)
    ensures a.NoRoom? && was == [] ==> Spared(g, disk)
  {
    hide View, Target, Affordable, Regrown, Fine, CanWrite, OneChange, Keeps, NowBytes, Spared;
    NothingNeedsNothing(g);
  }

  lemma NothingNeedsNothing(g: Geometry)
    requires g.sectorsPerCluster > 0
    ensures ClustersFor(g, 0) == 0
  {
  }

  method SafeWrite(p: Partition, tk: Tokenizer, path: seq<byte>, name: Name, data: seq<byte>, rewrite: bool,
                   heapOk: bool, ghost t: Node, ghost cp: seq<Name>)
    returns (answer: Answer, ghost t': Node)
    requires Ready(p, t, cp) && 0 in path && 0 !in name && p.Mounted()
    requires Safe(p.g, p.Disk(), p.Fat(), p.freeClusterCount, t, cp, CStr(path), name, data, rewrite, heapOk)
    modifies p`freeClusterCount, p.hd.sectors, tk
    ensures Ready(p, t', cp)
    ensures Rewrote(p.g, old(p.freeClusterCount), heapOk, t, cp, CStr(path), name, data, rewrite, answer, t')
    ensures !answer.Done? ==> p.freeClusterCount == old(p.freeClusterCount)
    ensures !answer.Done? && !answer.NoRoom? ==> p.Disk() == old(p.Disk())
    ensures answer.NoRoom? ==> p.Disk() == old(p.Disk()) || p.Disk() == Strayed(p.g, old(p.Disk()))
    ensures answer.Done? ==> exists j, s, n :: EntryWrittenAt(p.g, old(p.Data()), p.Data(), t, cp, CStr(path), j, s, n)
    ensures p.Mounted() && (NoLeaks(old(p.Fat()), t) ==> NoLeaks(p.Fat(), t'))
  {
    hide *;
    SafeParts(p.g, p.Disk(), p.Fat(), p.freeClusterCount, t, cp, CStr(path), name, data, rewrite, heapOk);
    ghost var disk, f, free := p.Disk(), p.Fat(), p.freeClusterCount;
    ghost var was, j, s;
    answer, t', was, j, s := WriteToFile(p, tk, path, name, data, rewrite, heapOk, t, cp);
    NoRoomIs(p.g, disk, was);
    SafeOutcome(p.g, disk, f, p.Fat(), free, t, cp, CStr(path), name, data, rewrite, heapOk, answer, t', was, j, s);
    WrittenSame(p.g, free, heapOk, Fine(p.g, s, was, data, rewrite), t, cp, CStr(path), name, data, rewrite, answer,
                t');
  }

  lemma SafeParts(g: Geometry, disk: seq<Sector>, f: seq<nat>, free: nat, t: Node, cp: seq<Name>, path: seq<byte>,
                  name: Name, data: seq<byte>, rewrite: bool, heapOk: bool)
    requires Safe(g, disk, f, free, t, cp, path, name, data, rewrite, heapOk)
    ensures g.sectorsPerCluster > 0 && CanWrite(g, free, t, cp, path, name, |data|, rewrite)
  {
  }

  lemma WrittenSame(g: Geometry, free: nat, heapOk: bool, fine: bool, t: Node, cp: seq<Name>, path: seq<byte>,
                    name: Name, data: seq<byte>, rewrite: bool, a: Answer, t': Node)
    requires g.sectorsPerCluster > 0 && WrittenAt(g, free, heapOk, fine, t, cp, path, name, data, rewrite, a, t')
    ensures a.InvalidPath? || a.NotFound? || a.NoRoom? ==> t' == t
  {
  }

  /** Changing the working directory, as an answer. */
  method Change(p: Partition, tk: Tokenizer, path: seq<byte>, ghost t: Node, ghost cp: seq<Name>)
    returns (answer: Answer, ghost cp': seq<Name>)
    requires Ready(p, t, cp) && 0 in path
    requires Target(t, cp, CStr(path)).Some? ==> PathFits(PathText(cp), CStr(path))
    modifies p`currentWorkingDir, p`cwdString, tk
    ensures Ready(p, t, cp') && (answer.Done? || answer.InvalidPath?)
    ensures if answer.Done? then Some(cp') == Target(t, cp, CStr(path))
        else cp' == cp && Target(t, cp, CStr(path)) == None
  {
    hide *;
    ReadyParts(p, t, cp);
    var ok;
    ok, cp' := ChangeCurrentWorkingDir(p, tk, path, t, cp);
    answer := if ok then Done else InvalidPath;
    ReadyNow(p, t, cp');
  }

  lemma ReadyNow(p: Partition, t: Node, cp: seq<Name>)
    requires Holds(p, t) && CwdOk(p, t, cp)
    ensures Ready(p, t, cp)
  {
  }

  lemma EffectIs(g: Geometry, st: State, t: Node, cp: seq<Name>, r: Request, resp: Response, st': State, t': Node,
                 cp': seq<Name>)
    requires g.Holds(|st.disk|) && g.Holds(|st'.disk|) && Bytewise(g, st, t, cp, r, resp.answer, st')
    requires r.MakeFile? ==>
      cp' == cp && Made(g, st.disk[g.DataStart()..], t, cp, CStr(r.path), r.name, Bytes([]), resp.answer, t')
    requires r.MakeFolder? ==>
      cp' == cp && Made(g, st.disk[g.DataStart()..], t, cp, CStr(r.path), r.name, Folder, resp.answer, t')
    requires r.DeleteFile? || r.DeleteFolder? ==> cp' == cp && DeletedAt(t, cp, CStr(r.path), r.name, resp.answer, t')
    requires r.Write? ==>
      cp' == cp && Rewrote(g, st.free, r.heapOk, t, cp, CStr(r.path), r.name, r.data, r.rewrite, resp.answer, t')
    requires r.Read? ==> cp' == cp && t' == t && ReadOut(t, cp, CStr(r.path), r.name, resp.answer, resp.out)
    requires r.Go? ==> t' == t && (resp.answer.Done? || resp.answer.InvalidPath?)
    requires r.Go? && resp.answer.Done? ==> Some(cp') == Target(t, cp, CStr(r.path))
    requires r.Go? && !resp.answer.Done? ==> cp' == cp && Target(t, cp, CStr(r.path)) == None
    ensures Effect(g, st, t, cp, r, resp, st', t', cp')
  {
    hide Made, DeletedAt, Rewrote, ReadOut, Target, Bytewise;
  }

  lemma BytewiseNow(g: Geometry, st: State, t: Node, cp: seq<Name>, r: Request, a: Answer, st': State, d: seq<Sector>,
                    d': seq<Sector>, f: seq<nat>)
    requires g.Holds(|st.disk|) && g.Holds(|st'.disk|)
    requires d == st.disk[g.DataStart()..] && d' == st'.disk[g.DataStart()..] && f == FatView(g, st.disk)
    requires r.Read? || r.Go? || (!a.Done? && !a.NoRoom?) || (a.NoRoom? && !r.Write?) ==>
      st'.disk == st.disk && st'.free == st.free
    requires r.Write? && a.NoRoom? ==> st'.free == st.free && (st'.disk == st.disk || st'.disk == Strayed(g, st.disk))
    requires r.MakeFile? && a.Done? ==> FileMadeAt(g, d, d', t, cp, CStr(r.path), r.name, r.stack, r.checksum, r.sfn)
    requires r.MakeFolder? && a.Done? ==>
      FolderMadeAt(g, f, d, d', t, cp, CStr(r.path), r.name, r.stack, r.checksum, r.sfn)
    requires (r.DeleteFile? || r.DeleteFolder?) && a.Done? ==> ErasedAt(g, d, d', t, cp, CStr(r.path), r.name)
    requires r.Write? && a.Done? ==> exists j, s, n :: EntryWrittenAt(g, d, d', t, cp, CStr(r.path), j, s, n)
    ensures Bytewise(g, st, t, cp, r, a, st')
  {
    hide FileMadeAt, FolderMadeAt, ErasedAt, EntryWrittenAt, FatView;
  }

  /** Creation in the right place and with a cluster at hand damages nothing. */
  lemma MadeSafely(g: Geometry, d: seq<Sector>, free: nat, t: Node, cp: seq<Name>, path: seq<byte>, name: Name,
                   what: What, a: Answer, t': Node)
    requires LandsRight(g, d, t, cp, path, name)
    requires MadeAt(t, cp, path, name, what, HasRoom(g, d, t, cp, path, name), free > 0,
                    LandsRight(g, d, t, cp, path, name), a, t')
    requires !RunsOut(g, d, free, t, cp, path, name)
    ensures Made(g, d, t, cp, path, name, what, a, t') && !a.Damaged?
  {
    hide LandsRight, HasRoom, View, Target, OneChange;
  }

  lemma MadeFile(g: Geometry, d: seq<Sector>, t: Node, cp: seq<Name>, path: seq<byte>, name: Name, what: What,
                 a: Answer, t': Node)
    requires LandsRight(g, d, t, cp, path, name)
    requires MadeAt(t, cp, path, name, what, HasRoom(g, d, t, cp, path, name), true,
                    LandsRight(g, d, t, cp, path, name), a, t')
    ensures Made(g, d, t, cp, path, name, what, a, t')
  {
    hide LandsRight, HasRoom, View, Target, OneChange;
  }

  /** The request loses clusters: it deletes as a file a directory with something below it that owns
      a cluster. */
  ghost predicate Loses(t: Node, cp: seq<Name>, r: Request) {
    r.DeleteFile? && OwnsBelow(t, cp, CStr(r.path), r.name)
  }

  lemma LosesIs(t: Node, cp: seq<Name>, r: Request)
    ensures Loses(t, cp, r) <==> r.DeleteFile? && OwnsBelow(t, cp, CStr(r.path), r.name)
  {
  }

  /** One request, carried out. */
  method Serve(p: Partition, tk: Tokenizer, r: Request, ghost t: Node, ghost cp: seq<Name>)
    returns (resp: Response, ghost t': Node, ghost cp': seq<Name>)
    requires Ready(p, t, cp) && p.g.Holds(|StateOf(p).disk|) && Allowed(p.g, StateOf(p), t, cp, r)
    modifies p`freeClusterCount, p`currentWorkingDir, p`cwdString, p.hd.sectors, tk
    ensures Ready(p, t', cp') && p.g.Holds(|StateOf(p).disk|)
    ensures Effect(p.g, old(StateOf(p)), t, cp, r, resp, StateOf(p), t', cp')
    ensures p.Mounted() && (NoLeaks(old(p.Fat()), t) ==> (NoLeaks(p.Fat(), t') <==> !Loses(t, cp, r)))
  {
    hide *;
    ReadyIsConsistent(p, t, cp);
    AllowedParts(p.g, StateOf(p), t, cp, r);
    t', cp' := t, cp;
    var answer, out: seq<byte> := InvalidPath, [];
    ghost var st, d, f := StateOf(p), p.Data(), p.Fat();
    match r {
      case MakeFile(path, name, sfn, checksum, stack) =>
        answer, t' := CreateFileAt(p, tk, path, name, sfn, checksum, stack, t, cp);
        MadeFile(p.g, d, t, cp, CStr(path), name, Bytes([]), answer, t');
      case MakeFolder(path, name, sfn, checksum, stack) =>
        answer, t' := CreateDirAt(p, tk, path, name, sfn, checksum, stack, t, cp);
        MadeSafely(p.g, d, st.free, t, cp, CStr(path), name, Folder, answer, t');
      case DeleteFile(path, name) =>
        var again;
        answer, again, t' := DeleteFileAt(p, tk, path, name, t, cp);
      case DeleteFolder(path, name) =>
        answer, t' := DeleteDirAt(p, tk, path, name, t, cp);
      case Write(path, name, data, rewrite, heapOk) =>
        answer, t' := SafeWrite(p, tk, path, name, data, rewrite, heapOk, t, cp);
      case Read(path, name) =>
        answer, out := ReadFileAt(p, tk, path, name, t, cp);
      case Go(path) =>
        answer, cp' := Change(p, tk, path, t, cp);
    }
    resp := Response(answer, out);
    LosesIs(t, cp, r);
    ReadyIsConsistent(p, t', cp');
    BytewiseNow(p.g, st, t, cp, r, answer, StateOf(p), d, p.Data(), f);
    EffectIs(p.g, st, t, cp, r, resp, StateOf(p), t', cp');
  }

  // ---- any run ----

  /** A way to decide from the partition's state whether a request is carried out, which lets none
      through that its caller may not make. */
  ghost predicate Careful(g: Geometry, guard: (State, Request) -> bool) {
    forall st, t, cp, r :: Consistent(g, st, t, cp) && guard(st, r) ==> g.Holds(|st.disk|) && Allowed(g, st, t, cp, r)
  }

  lemma GuardSound(g: Geometry, guard: (State, Request) -> bool, st: State, t: Node, cp: seq<Name>, r: Request)
    requires Careful(g, guard) && Consistent(g, st, t, cp) && guard(st, r)
    ensures g.Holds(|st.disk|) && Allowed(g, st, t, cp, r)
  {
  }

  /** A point of a run: the partition's state, the tree that it holds and the working directory. */
  datatype Moment = Moment(st: State, t: Node, cp: seq<Name>)

  /** From one moment to the next; None is a request that was not carried out. */
  ghost predicate Step(g: Geometry, guard: (State, Request) -> bool, m: Moment, r: Request, resp: Option<Response>,
                       m': Moment) {
    && Consistent(g, m.st, m.t, m.cp) && Consistent(g, m'.st, m'.t, m'.cp)
    && g.Holds(|m.st.disk|) && g.Holds(|m'.st.disk|)
    && (resp.Some? <==> guard(m.st, r))
    && if resp.None? then m' == m else Effect(g, m.st, m.t, m.cp, r, resp.value, m'.st, m'.t, m'.cp)
  }

  lemma StepNow(g: Geometry, guard: (State, Request) -> bool, m: Moment, r: Request, resp: Option<Response>, m': Moment)
    requires Consistent(g, m.st, m.t, m.cp) && Consistent(g, m'.st, m'.t, m'.cp)
    requires g.Holds(|m.st.disk|) && g.Holds(|m'.st.disk|)
    requires resp.Some? <==> guard(m.st, r)
    requires if resp.None? then m' == m else Effect(g, m.st, m.t, m.cp, r, resp.value, m'.st, m'.t, m'.cp)
    ensures Step(g, guard, m, r, resp, m')
  {
  }

  /** Moment by moment, a run follows from the requests. */
  ghost predicate Follows(g: Geometry, guard: (State, Request) -> bool, ms: seq<Moment>, requests: seq<Request>,
                          responses: seq<Option<Response>>) {
    && |ms| == |responses| + 1 && |responses| <= |requests|
    && forall i :: 0 <= i < |responses| ==> Step(g, guard, ms[i], requests[i], responses[i], ms[i + 1])
  }

  lemma FollowsOn(g: Geometry, guard: (State, Request) -> bool, ms: seq<Moment>, requests: seq<Request>,
                  responses: seq<Option<Response>>, resp: Option<Response>, m: Moment)
    requires Follows(g, guard, ms, requests, responses) && |responses| < |requests|
    requires Step(g, guard, ms[|responses|], requests[|responses|], resp, m)
    ensures Follows(g, guard, ms + [m], requests, responses + [resp])
  {
    hide Step;
  }

  /** No request of the run loses clusters. */
  ghost predicate Tidily(ms: seq<Moment>, requests: seq<Request>, responses: seq<Option<Response>>)
    requires |ms| == |responses| + 1 && |responses| <= |requests|
  {
    forall i :: 0 <= i < |responses| && responses[i].Some? ==> !Loses(ms[i].t, ms[i].cp, requests[i])
  }

  lemma TidilyOn(ms: seq<Moment>, requests: seq<Request>, responses: seq<Option<Response>>, resp: Option<Response>,
                 m: Moment)
    requires |ms| == |responses| + 1 && |responses| < |requests|
    requires Tidily(ms + [m], requests, responses + [resp])
    ensures Tidily(ms, requests, responses)
    ensures resp.Some? ==> !Loses(ms[|responses|].t, ms[|responses|].cp, requests[|responses|])
  {
    hide Loses;
    var rs := responses + [resp];
    assert rs[|responses|] == resp;
    forall i | 0 <= i < |responses| && responses[i].Some?
      ensures !Loses(ms[i].t, ms[i].cp, requests[i])
    {
      assert rs[i] == responses[i] && (ms + [m])[i] == ms[i];
    }
  }

  /** Any run of requests, each carried out if the guard lets it through. */
  method Run(p: Partition, tk: Tokenizer, guard: (State, Request) -> bool, requests: seq<Request>, ghost t: Node,
             ghost cp: seq<Name>)
    returns (responses: seq<Option<Response>>, ghost ms: seq<Moment>)
    requires Ready(p, t, cp) && Careful(p.g, guard)
    modifies p`freeClusterCount, p`currentWorkingDir, p`cwdString, p.hd.sectors, tk
    ensures |responses| == |requests| && Follows(p.g, guard, ms, requests, responses)
    ensures ms[0] == Moment(old(StateOf(p)), t, cp) && ms[|requests|].st == StateOf(p)
    ensures Ready(p, ms[|requests|].t, ms[|requests|].cp)
    ensures p.Mounted()
    ensures (NoLeaks(old(p.Fat()), t) && Tidily(ms, requests, responses) ==> NoLeaks(p.Fat(), ms[|requests|].t))
  {
    hide *;
    ReadyIsConsistent(p, t, cp);
    responses, ms := [], [Moment(StateOf(p), t, cp)];
    FollowsNothing(p.g, guard, ms[0], requests);
    ghost var u, up := t, cp;
    var i := 0;
    while i < |requests|
      invariant i == |responses| <= |requests| && |ms| == i + 1
      invariant Follows(p.g, guard, ms, requests, responses) && Ready(p, u, up)
      invariant ms[0] == Moment(old(StateOf(p)), t, cp) && ms[i] == Moment(StateOf(p), u, up) && p.Mounted()
      invariant NoLeaks(old(p.Fat()), t) && Tidily(ms, requests, responses) ==> NoLeaks(p.Fat(), u)
    {
      ReadyIsConsistent(p, u, up);
      var resp := None;
      ghost var u', up' := u, up;
      if guard(StateOf(p), requests[i]) {
        GuardSound(p.g, guard, StateOf(p), u, up, requests[i]);
        var answered;
        answered, u', up' := Serve(p, tk, requests[i], u, up);
        resp := Some(answered);
        ReadyIsConsistent(p, u', up');
      }
      ghost var m := Moment(StateOf(p), u', up');
      StepNow(p.g, guard, ms[i], requests[i], resp, m);
      FollowsOn(p.g, guard, ms, requests, responses, resp, m);
      if Tidily(ms + [m], requests, responses + [resp]) {
        TidilyOn(ms, requests, responses, resp, m);
      }
      responses, ms := responses + [resp], ms + [m];
      u, up := u', up';
      i := i + 1;
    }
  }

  lemma FollowsNothing(g: Geometry, guard: (State, Request) -> bool, m: Moment, requests: seq<Request>)
    ensures Follows(g, guard, [m], requests, [])
  {
  }

  // ---- what that means for a name ----

  /** The request is about `q` or a directory that `q` lies below. */
  ghost predicate Touches(t: Node, cp: seq<Name>, r: Request, q: seq<Name>) {
    !r.Go? && !r.Read? && match Target(t, cp, CStr(r.path)) case None => false case Some(dir) => dir + [r.name] <= q
  }

  lemma EffectElsewhere(g: Geometry, st: State, t: Node, cp: seq<Name>, r: Request, resp: Response, st': State,
                        t': Node, cp': seq<Name>, q: seq<Name>)
    requires g.Holds(|st.disk|) && g.Holds(|st'.disk|) && Effect(g, st, t, cp, r, resp, st', t', cp')
    requires !Touches(t, cp, r, q)
    ensures View(t', q) == View(t, q)
  {
    hide View, Target, ReadOut, HasRoom, Affordable, NowBytes, ClustersFor, Bytewise;
  }

  /** A name leads to the same thing before and after a part of a run in which no request is about it. */
  lemma {:induction false} RunElsewhere(g: Geometry, guard: (State, Request) -> bool, ms: seq<Moment>,
                                        requests: seq<Request>, responses: seq<Option<Response>>, q: seq<Name>, m: nat,
                                        n: nat)
    requires Follows(g, guard, ms, requests, responses) && m <= n <= |responses|
    requires forall i :: m <= i < n && responses[i].Some? ==> !Touches(ms[i].t, ms[i].cp, requests[i], q)
    ensures View(ms[n].t, q) == View(ms[m].t, q)
    decreases n
  {
    hide View, Effect, Touches, Consistent;
    if n > m {
      RunElsewhere(g, guard, ms, requests, responses, q, m, n - 1);
      assert Step(g, guard, ms[n - 1], requests[n - 1], responses[n - 1], ms[n - 1 + 1]);
      if responses[n - 1].Some? {
        EffectElsewhere(g, ms[n - 1].st, ms[n - 1].t, ms[n - 1].cp, requests[n - 1], responses[n - 1].value, ms[n].st,
                        ms[n].t, ms[n].cp, q);
      }
    }
  }

  /** What was written is read: whatever else a run does, by whatever paths, from wherever. */
  lemma WrittenThenRead(g: Geometry, guard: (State, Request) -> bool, ms: seq<Moment>, requests: seq<Request>,
                        responses: seq<Option<Response>>, m: nat, n: nat, dir: seq<Name>)
    requires Follows(g, guard, ms, requests, responses) && m < n < |responses|
    requires requests[m].Write? && responses[m].Some? && responses[m].value.answer == Done
    requires requests[n].Read? && responses[n].Some? && requests[n].name == requests[m].name
    requires Target(ms[m].t, ms[m].cp, CStr(requests[m].path)) ==
            Some(dir) == Target(ms[n].t, ms[n].cp, CStr(requests[n].path))
    requires forall i :: m < i < n && responses[i].Some? ==>
      !Touches(ms[i].t, ms[i].cp, requests[i], dir + [requests[m].name])
    ensures View(ms[m].t, dir + [requests[m].name]).Some? && View(ms[m].t, dir + [requests[m].name]).value.Bytes?
    ensures responses[n].value.answer == Done
    ensures responses[n].value.out ==
            NowBytes(View(ms[m].t, dir + [requests[m].name]).value.bytes, requests[m].data, requests[m].rewrite)
  {
    hide View, Touches, Target, NowBytes, Consistent, Affordable, ClustersFor;
    RunElsewhere(g, guard, ms, requests, responses, dir + [requests[m].name], m + 1, n);
    assert Step(g, guard, ms[m], requests[m], responses[m], ms[m + 1]);
    assert Step(g, guard, ms[n], requests[n], responses[n], ms[n + 1]);
  }
}
