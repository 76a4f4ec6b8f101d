/** The file allocation table as it lies on the disk: 32-bit little-endian slots, stored twice. */
module FatTable {
  import opened Bytes

  const SLOTS_PER_SECTOR := 128
  const FAT_MASK := 0x1000_0000       // an entry is read through the low 28 bits
  const END_OF_CHAIN := 0x0FFF_FFF8
  const FREE_COUNT_AT := 488          // offset of freeClusterCount in the FSInfo sector

  /** The mounted partition's layout. `written` says which reading of four places in the source
      is modelled: the text as it is compiled (true), or what that text is evidently meant to
      say (false). See README.md. */
  datatype Geometry = Geometry(
    infoSector: nat, fatStart: nat, fatSize: nat, sectorsPerCluster: nat, rootCluster: nat, written: bool)
  {
    /** The scans for free clusters stop here (fat.c:140, 176). */
    function Limit(): nat {
      fatSize / 4
    }

    /** Two copies of the table precede the data area (fat.c:104). */
    function DataStart(): nat {
      fatStart + 2 * fatSize
    }

    /** The table sector of an entry. SECTOR_TO_BYTE is the bare text `512 / 4`, so
        `ent_idx / SECTOR_TO_BYTE` at fat.c:62 and :78 divides by 512 and then by 4. */
    function Row(entry: nat): nat {
      if written then entry / 512 / 4 else entry / SLOTS_PER_SECTOR
    }

    /** Sectors that the `<=` and `>` loop tests walk in one cluster (fat.c:422, 493, 684, 752, 869,
        1003, 1128, 1180, 1300). */
    function Lap(): nat {
      if written then sectorsPerCluster + 1 else sectorsPerCluster
    }

    function ClusterBytes(): nat {
      SECTOR_SIZE * sectorsPerCluster
    }

    /** Both copies of the table lie on a drive of `n` sectors. */
    predicate Holds(n: nat) {
      infoSector < fatStart && DataStart() <= n <= 0x1000_0000
    }

    /** Distinct entries below the limit have distinct slots (lemma SlotsDistinctIff). */
    predicate Faithful() {
      written ==> Limit() <= SLOTS_PER_SECTOR
    }

    predicate SameSlot(i: nat, j: nat) {
      Row(i) == Row(j) && i % SLOTS_PER_SECTOR == j % SLOTS_PER_SECTOR
    }

    predicate InTable(i: nat) {
      Row(i) < fatSize
    }
  }

  function Slot(s: Sector, i: nat): nat {
    U32(s, 4 * (i % SLOTS_PER_SECTOR))
  }

  function SetSlot(s: Sector, i: nat, v: nat): Sector
    requires v < 0x1_0000_0000
  {
    Patch(s, 4 * (i % SLOTS_PER_SECTOR), Le32(v))
  }

  /** A slot is four bytes, and storing it changes no other byte of the sector. */
  lemma SetSlotBytes(s: Sector, i: nat, v: nat)
    requires v < 0x1_0000_0000
    ensures U32(SetSlot(s, i, v), 4 * (i % 128)) == v
    ensures forall k :: 0 <= k < 512 && !(4 * (i % 128) <= k < 4 * (i % 128) + 4) ==> SetSlot(s, i, v)[k] == s[k]
  {
    PatchU32(s, 4 * (i % 128), v, 4 * (i % 128));
  }

  /** read_fat_entry, fat.c:58-67 */
  function ReadSlot(g: Geometry, d: seq<Sector>, i: nat): nat
    requires g.Holds(|d|) && g.InTable(i)
  {
    Slot(d[g.fatStart + g.Row(i)], i) % FAT_MASK
  }

  /** write_fat_entry, fat.c:74-90 */
  function WriteSlot(g: Geometry, d: seq<Sector>, i: nat, v: nat): (r: seq<Sector>)
    requires g.Holds(|d|) && g.InTable(i) && v < 0x1_0000_0000
    ensures |r| == |d|
  {
    var first := g.fatStart + g.Row(i);
    var d1 := d[first := SetSlot(d[first], i, v)];
    d1[first + g.fatSize := SetSlot(d1[first + g.fatSize], i, v)]
  }

  /** One of the two stores, at any sector number: without such a sector it is lost. */
  function PutSlot(d: seq<Sector>, at: nat, i: nat, v: nat): (r: seq<Sector>)
    requires v < 0x1_0000_0000
    ensures |r| == |d|
  {
    if at < |d| then d[at := SetSlot(d[at], i, v)] else d
  }

  /** write_fat_entry for any number, in the table or not. */
  function WriteAnywhere(g: Geometry, d: seq<Sector>, i: nat, v: nat): (r: seq<Sector>)
    requires v < 0x1_0000_0000
    ensures |r| == |d|
  {
    PutSlot(PutSlot(d, g.fatStart + g.Row(i), i, v), g.fatStart + g.fatSize + g.Row(i), i, v)
  }

  lemma WriteInTable(g: Geometry, d: seq<Sector>, i: nat, v: nat)
    requires g.Holds(|d|) && g.InTable(i) && v < 0x1_0000_0000
    ensures WriteAnywhere(g, d, i, v) == WriteSlot(g, d, i, v)
  {
  }

  /** Nothing is stored at `at`: the drive ends before it, or the slot holds the value. */
  predicate HoldsSlot(d: seq<Sector>, at: nat, i: nat, v: nat) {
    at < |d| ==> Slot(d[at], i) == v
  }

  lemma PutSlotSame(d: seq<Sector>, at: nat, i: nat, v: nat)
    requires v < 0x1_0000_0000
    ensures PutSlot(d, at, i, v) == d <==> HoldsSlot(d, at, i, v)
  {
    if at < |d| {
      PatchSame(d[at], 4 * (i % SLOTS_PER_SECTOR), v);
    }
  }

  /** A write leaves the drive as it is exactly when neither of its stores does anything. */
  lemma WriteNothingIff(g: Geometry, d: seq<Sector>, i: nat, v: nat)
    requires g.fatSize > 0 && v < 0x1_0000_0000
    ensures WriteAnywhere(g, d, i, v) == d <==>
            HoldsSlot(d, g.fatStart + g.Row(i), i, v) && HoldsSlot(d, g.fatStart + g.fatSize + g.Row(i), i, v)
  {
    hide SetSlot, Slot, Geometry.Row;
    var at := g.fatStart + g.Row(i);
    var d1 := PutSlot(d, at, i, v);
    PutSlotSame(d, at, i, v);
    PutSlotSame(d1, at + g.fatSize, i, v);
    PutSlotSame(d, at + g.fatSize, i, v);
    if WriteAnywhere(g, d, i, v) == d && at < |d| {
      assert d1[at] == WriteAnywhere(g, d, i, v)[at];
    }
  }

  /** The table's copies agree. */
  ghost predicate Mirrored(g: Geometry, d: seq<Sector>)
    requires g.Holds(|d|)
  {
    forall k {:trigger d[k]} :: g.fatStart <= k < g.fatStart + g.fatSize ==> d[k + g.fatSize] == d[k]
  }

  lemma ReadAfterWrite(g: Geometry, d: seq<Sector>, i: nat, v: nat, j: nat)
    requires g.Holds(|d|) && g.InTable(i) && g.InTable(j) && v < 0x1_0000_0000
    ensures ReadSlot(g, WriteSlot(g, d, i, v), j) ==
            if g.SameSlot(i, j) then v % FAT_MASK else ReadSlot(g, d, j)
  {
    PatchU32(d[g.fatStart + g.Row(i)], 4 * (i % SLOTS_PER_SECTOR), v, 4 * (j % SLOTS_PER_SECTOR));
  }

  lemma WriteKeepsMirror(g: Geometry, d: seq<Sector>, i: nat, v: nat)
    requires g.Holds(|d|) && g.InTable(i) && v < 0x1_0000_0000
    requires Mirrored(g, d)
    ensures Mirrored(g, WriteSlot(g, d, i, v))
  {
  }

  lemma SlotsDistinctIff(g: Geometry)
    ensures g.Faithful() <==> forall i: nat, j: nat :: i < j < g.Limit() ==> !g.SameSlot(i, j)
  {
    if g.Faithful() {
      forall i: nat, j: nat | i < j < g.Limit()
        ensures !g.SameSlot(i, j)
      {
        if !g.written {
          assert i == 128 * (i / 128) + i % 128 && j == 128 * (j / 128) + j % 128;
        }
      }
    } else {
      assert g.SameSlot(0, 128);
    }
  }

  /** A write of `v` to entry `i` is seen by a read of `j` only when they are the same entry. */
  ghost predicate WriteIsLocal(g: Geometry, d: seq<Sector>, i: nat, v: nat, j: nat)
    requires g.Holds(|d|) && i < g.Limit() && j < g.Limit() && v < FAT_MASK
  {
    ReadSlot(g, WriteSlot(g, d, i, v), j) == if i == j then v else ReadSlot(g, d, j)
  }

  lemma FaithfulWriteIsLocal(g: Geometry, d: seq<Sector>, i: nat, v: nat, j: nat)
    requires g.Holds(|d|) && i < g.Limit() && j < g.Limit() && v < FAT_MASK
    requires g.Faithful()
    ensures WriteIsLocal(g, d, i, v, j)
  {
    SlotsDistinctIff(g);
    ReadAfterWrite(g, d, i, v, j);
    assert i < j ==> !g.SameSlot(i, j);
    assert j < i ==> !g.SameSlot(j, i);
  }

  /** The table behaves as a map of numbered entries exactly when no two of them share a slot;
      as compiled, that is when at most 128 entries are in use. */
  lemma MapLawIff(g: Geometry, d: seq<Sector>)
    requires g.Holds(|d|)
    ensures g.Faithful() <==>
            forall i: nat, v: nat, j: nat :: i < g.Limit() && j < g.Limit() && v < FAT_MASK ==>
              WriteIsLocal(g, d, i, v, j)
  {
    if g.Faithful() {
      forall i: nat, v: nat, j: nat | i < g.Limit() && j < g.Limit() && v < FAT_MASK
        ensures WriteIsLocal(g, d, i, v, j)
      {
        FaithfulWriteIsLocal(g, d, i, v, j);
      }
    } else {
      var v := (ReadSlot(g, d, 128) + 1) % FAT_MASK;
      ReadAfterWrite(g, d, 0, v, 128);
      assert !WriteIsLocal(g, d, 0, v, 128);
    }
  }

  datatype Write = Write(entry: nat, value: nat)

  ghost predicate WritesFit(g: Geometry, ws: seq<Write>) {
    forall k :: 0 <= k < |ws| ==> g.InTable(ws[k].entry) && ws[k].value < 0x1_0000_0000
  }

  function RunWrites(g: Geometry, d: seq<Sector>, ws: seq<Write>): (r: seq<Sector>)
    requires g.Holds(|d|) && WritesFit(g, ws)
    ensures |r| == |d|
    decreases |ws|
  {
    if ws == [] then d
    else
      var k := |ws| - 1;
      WriteSlot(g, RunWrites(g, d, ws[..k]), ws[k].entry, ws[k].value)
  }

  /** The value that the last write to entry `j`'s slot stored, if there was one. */
  function LastWrite(g: Geometry, ws: seq<Write>, j: nat): Option<nat> {
    if ws == [] then None
    else
      var k := |ws| - 1;
      if g.SameSlot(ws[k].entry, j) then Some(ws[k].value) else LastWrite(g, ws[..k], j)
  }

  /** After any run of writes both copies still agree, and an entry reads as the last value
      stored in its slot, cut to 28 bits, or as before if there was none. */
  lemma {:induction false} RunRefinesMap(g: Geometry, d: seq<Sector>, ws: seq<Write>, j: nat)
    requires g.Holds(|d|) && WritesFit(g, ws) && g.InTable(j)
    requires Mirrored(g, d)
    ensures Mirrored(g, RunWrites(g, d, ws))
    ensures ReadSlot(g, RunWrites(g, d, ws), j) ==
            match LastWrite(g, ws, j)
            case Some(v) => v % FAT_MASK
            case None => ReadSlot(g, d, j)
    decreases |ws|
  {
    if ws != [] {
      var k := |ws| - 1;
      RunRefinesMap(g, d, ws[..k], j);
      var before := RunWrites(g, d, ws[..k]);
      WriteKeepsMirror(g, before, ws[k].entry, ws[k].value);
      ReadAfterWrite(g, before, ws[k].entry, ws[k].value, j);
    }
  }
}
