/** The ATA drive as the file system sees it: numbered 512-byte sectors, moved 16 bits at a time. */
module Drives {
  import opened Bytes

  const LAST_LBA28 := 0x0FFF_FFFF

  class Drive {
    const sectors: array<Sector>

    constructor (image: array<Sector>)
      ensures sectors == image
    {
      sectors := image;
    }

    /** src/drivers/ata.c:80-112. The bytes of `buff` past `count` are not touched. */
    method Read28(sectorNum: nat, buff: seq<byte>, count: nat) returns (out: seq<byte>)
      requires count <= |buff| && count <= SECTOR_SIZE
      ensures out == if sectorNum <= 0x0FFF_FFFF && sectorNum < sectors.Length
                     then sectors[sectorNum][..count] + buff[count..]
                     else buff
    {
      out := buff;
      if sectorNum > LAST_LBA28 {
        return;
      }
      if sectorNum >= sectors.Length {  // the drive raises its error bit
        return;
      }
      var i := 0;
      while i < count
        invariant 0 <= i <= count + 1 && i % 2 == 0
        invariant out == sectors[sectorNum][..Min(i, count)] + buff[Min(i, count)..]
      {
        var lo, hi := sectors[sectorNum][i], sectors[sectorNum][i + 1];
        out := out[i := lo];
        if i + 1 < count {
          out := out[i + 1 := hi];
        }
        i := i + 2;
      }
    }

    /** src/drivers/ata.c:119-150. A short write zero-fills the rest of the sector. */
    method Write28(sectorNum: nat, data: seq<byte>, count: nat)
      requires count <= |data|
      modifies sectors
      ensures sectors[..] ==
              if sectorNum <= 0x0FFF_FFFF && sectorNum < sectors.Length && count <= 512
              then old(sectors[..])[sectorNum := Padded(data[..count])]
              else old(sectors[..])
    {
      if sectorNum > LAST_LBA28 || count > SECTOR_SIZE {
        return;
      }
      if sectorNum >= sectors.Length {  // the drive raises its error bit
        return;
      }
      var out: seq<byte> := [];
      var i := 0;
      while i < count
        invariant 0 <= i <= count + 1 && i % 2 == 0
        invariant out == data[..Min(i, count)] + Zeros(i - Min(i, count))
      {
        out := out + [data[i], if i + 1 < count then data[i + 1] else 0];
        i := i + 2;
      }
      i := count + count % 2;
      while i < SECTOR_SIZE
        invariant count <= i <= SECTOR_SIZE && i % 2 == 0
        invariant out == data[..count] + Zeros(i - count)
      {
        out := out + [0, 0];
        i := i + 2;
      }
      sectors[sectorNum] := out;
    }
  }
}
