/** A mounted FAT32 partition: the descriptor of include/filesystem/fat.h:84-94 over a drive. */
module Partitions {
  import opened Bytes
  import opened Drives
  import opened FatTable
  import opened FileData

  const SLASH: byte := 47

  /** The table's entries below the scan limit, as numbers. */
  function FatView(g: Geometry, d: seq<Sector>): (f: seq<nat>)
    requires g.Holds(|d|)
    ensures |f| == g.Limit()
  {
    seq(g.Limit(), i requires 0 <= i < g.Limit() => ReadSlot(g, d, i))
  }

  lemma FatViewWrite(g: Geometry, d: seq<Sector>, i: nat, v: nat)
    requires g.Holds(|d|) && g.Faithful() && i < g.Limit() && v < FAT_MASK
    ensures FatView(g, WriteSlot(g, d, i, v)) == FatView(g, d)[i := v]
  {
    forall j | 0 <= j < g.Limit()
      ensures FatView(g, WriteSlot(g, d, i, v))[j] == FatView(g, d)[i := v][j]
    {
      FaithfulWriteIsLocal(g, d, i, v, j);
    }
  }

  lemma WriteSlotView(g: Geometry, d: seq<Sector>, i: nat, v: nat)
    requires g.Holds(|d|) && g.Faithful() && i < g.Limit() && v < FAT_MASK
    requires Mirrored(g, d)
    ensures Mirrored(g, WriteSlot(g, d, i, v))
    ensures FatView(g, WriteSlot(g, d, i, v)) == FatView(g, d)[i := v]
    ensures WriteSlot(g, d, i, v)[g.DataStart()..] == d[g.DataStart()..]
    ensures WriteSlot(g, d, i, v)[g.infoSector] == d[g.infoSector]
  {
    FatViewWrite(g, d, i, v);
    WriteKeepsMirror(g, d, i, v);
  }

  /** A drive of `n` sectors has room for the clusters below the limit and one more: the scans
      stop far below the number of clusters that a table of this size describes. */
  predicate Mountable(g: Geometry, n: nat) {
    && g.Holds(n)
    && g.Faithful()
    && 1 <= g.sectorsPerCluster < 0x100
    && 2 <= g.rootCluster < g.Limit()
    && Base(g.sectorsPerCluster, g.Limit()) + g.sectorsPerCluster <= n - g.DataStart()
  }

  lemma ClustersInArea(g: Geometry, n: nat, s: seq<nat>)
    requires Mountable(g, n) && forall i :: 0 <= i < |s| ==> 2 <= s[i] < g.Limit()
    ensures InArea(n - g.DataStart(), g.sectorsPerCluster, s)
    ensures ReadArea(n - g.DataStart(), g.sectorsPerCluster, s)
  {
    forall i | 0 <= i < |s|
      ensures Base(g.sectorsPerCluster, s[i]) + g.sectorsPerCluster <= Base(g.sectorsPerCluster, g.Limit())
    {
      TimesGrows(g.sectorsPerCluster, s[i] - 2, g.Limit() - 2);
    }
  }

  /** An FSInfo sector that shows the free count in bytes 488 to 491 and else what `image` shows. */
  ghost predicate InfoShows(s: Sector, image: Sector, count: nat) {
    U32(s, 488) == count && forall k :: 0 <= k < 512 && !(488 <= k < 492) ==> s[k] == image[k]
  }

  class Partition {
    const hd: Drive
    const g: Geometry
    const infoImage: Sector           // the FSInfo block, but for its free count
    ghost const reserved: seq<Sector> // the sectors before the table, as they were found
    var freeClusterCount: nat
    var currentWorkingDir: nat
    var cwdString: seq<byte>

    constructor (drive: Drive, geometry: Geometry, image: Sector)
      requires Mountable(geometry, drive.sectors.Length)
      ensures hd == drive && g == geometry && infoImage == image
      ensures freeClusterCount == U32(image, 488) && reserved == drive.sectors[..geometry.fatStart]
      ensures currentWorkingDir == g.rootCluster && cwdString == [47]
    {
      hd, g, infoImage := drive, geometry, image;
      reserved := drive.sectors[..geometry.fatStart];
      freeClusterCount := U32(image, FREE_COUNT_AT);
      currentWorkingDir := geometry.rootCluster;
      cwdString := [SLASH];
    }

    predicate Mounted() {
      Mountable(g, hd.sectors.Length)
    }

    ghost function Disk(): seq<Sector>
      reads hd.sectors
    {
      hd.sectors[..]
    }

    ghost function Fat(): (f: seq<nat>)
      requires Mounted()
      reads hd.sectors
      ensures |f| == g.Limit() && |f| <= END_OF_CHAIN
    {
      FatView(g, Disk())
    }

    ghost function Data(): (s: seq<Sector>)
      requires Mounted()
      reads hd.sectors
      ensures |s| == hd.sectors.Length - g.DataStart()
    {
      Disk()[g.DataStart()..]
    }

    /** The FSInfo sector as it lies on the disk. */
    ghost function Info(): Sector
      requires Mounted()
      reads hd.sectors
    {
      Disk()[g.infoSector]
    }

    /** But for the FSInfo sector, nothing before the table has changed. */
    ghost predicate Kept()
      requires Mounted()
      reads hd.sectors
    {
      |reserved| == g.fatStart && forall k :: 0 <= k < g.fatStart && k != g.infoSector ==> Disk()[k] == reserved[k]
    }

    /** The layout fits the drive, both copies of the table agree, and the sectors before it are kept. */
    ghost predicate Sound()
      reads hd.sectors
    {
      Mounted() && Mirrored(g, Disk()) && Kept()
    }

    /** The FSInfo sector shows the free count, and else what it showed when it was found. */
    ghost predicate InfoSynced()
      requires Mounted()
      reads this, hd.sectors
    {
      InfoShows(Info(), infoImage, freeClusterCount)
    }

    /** fat.c:58-67 */
    method ReadFatEntry(entry: nat) returns (v: nat)
      requires Mounted() && entry < g.Limit()
      ensures v == Fat()[entry]
      ensures var row := if g.written then entry / 512 / 4 else entry / 128;
        g.fatStart + row < hd.sectors.Length && v == U32(Disk()[g.fatStart + row], 4 * (entry % 128)) % 0x1000_0000
    {
      var buff := hd.Read28(g.fatStart + g.Row(entry), Zeros(SECTOR_SIZE), SECTOR_SIZE);
      assert buff == Disk()[g.fatStart + g.Row(entry)];
      v := Slot(buff, entry) % FAT_MASK;
    }

    /** fat.c:74-90, for an entry of the table. The four bits above an entry are not kept. */
    method WriteFatEntry(entry: nat, v: nat)
      requires Sound() && entry < g.Limit() && v < FAT_MASK
      modifies hd.sectors
      ensures Sound() && Disk() == WriteSlot(g, old(Disk()), entry, v)
      ensures Fat() == old(Fat())[entry := v]
      ensures Data() == old(Data()) && Info() == old(Info())
    {
      ghost var before := Disk();
      WriteAnyEntry(entry, v);
      WriteInTable(g, before, entry, v);
      WriteSlotView(g, before, entry, v);
    }

    /** fat.c:74-90, for any number: both copies, one after the other. */
    method WriteAnyEntry(entry: nat, v: nat)
      requires Mounted() && v < 0x1_0000_0000
      modifies hd.sectors
      ensures Disk() == WriteAnywhere(g, old(Disk()), entry, v)
    {
      StoreSlot(g.fatStart + g.Row(entry), entry, v);
      StoreSlot(g.fatStart + g.fatSize + g.Row(entry), entry, v);
    }

    /** One read-modify-write of a table sector (fat.c:79-84, 86-89). */
    method StoreSlot(at: nat, entry: nat, v: nat)
      requires Mounted() && v < 0x1_0000_0000
      modifies hd.sectors
      ensures Disk() == PutSlot(old(Disk()), at, entry, v)
    {
      var buff := hd.Read28(at, Zeros(SECTOR_SIZE), SECTOR_SIZE);
      assert at < hd.sectors.Length ==> buff == Disk()[at];
      buff := SetSlot(buff, entry, v);
      hd.Write28(at, buff, SECTOR_SIZE);
      assert Padded(buff[..SECTOR_SIZE]) == buff;
    }

    /** fat.c:115-118 */
    method UpdateFSInfo()
      requires Sound() && freeClusterCount < 0x1_0000_0000
      modifies hd.sectors
      ensures Sound() && InfoSynced() && Disk() == old(Disk())[g.infoSector := Info()]
      ensures Fat() == old(Fat()) && Data() == old(Data())
    {
      var block := Patch(infoImage, FREE_COUNT_AT, Le32(freeClusterCount));
      hd.Write28(g.infoSector, block, SECTOR_SIZE);
      assert Padded(block[..SECTOR_SIZE]) == block;
      PatchU32(infoImage, FREE_COUNT_AT, freeClusterCount, FREE_COUNT_AT);
    }

    /** A sector of the data area. */
    method ReadData(k: nat) returns (s: Sector)
      requires Mounted() && k < hd.sectors.Length - g.DataStart()
      ensures s == Data()[k] && g.fatStart + 2 * g.fatSize + k < |Disk()| && s == Disk()[g.fatStart + 2 * g.fatSize + k]
    {
      var buff := hd.Read28(g.DataStart() + k, Zeros(SECTOR_SIZE), SECTOR_SIZE);
      assert buff == Disk()[g.DataStart() + k];
      s := buff;
    }

    method WriteData(k: nat, bytes: seq<byte>)
      requires Sound() && k < hd.sectors.Length - g.DataStart()
      requires |bytes| <= SECTOR_SIZE
      modifies hd.sectors
      ensures Sound()
      ensures Data() == old(Data())[k := Padded(bytes)]
      ensures Disk() == old(Disk())[g.fatStart + 2 * g.fatSize + k := bytes + Zeros(512 - |bytes|)]
      ensures Fat() == old(Fat()) && Info() == old(Info())
    {
      hd.Write28(g.DataStart() + k, bytes, |bytes|);
      assert bytes[..|bytes|] == bytes;
    }
  }
}
