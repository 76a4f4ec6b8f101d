/** Directory entries and long names: src/filesystem/fat.c:14-52, 341-371 and the structures
    directory_entry_fat32 and LFN_entry_fat32 of include/filesystem/fat.h:50-75. */
module LongNames {
  import opened Bytes
  import opened Strings

  const ENTRY_SIZE := 32
  const PART := 13              // characters in one long-name entry
  const NAME_BUFFER := 256
  const MAX_PARTS := 19         // 20 parts would overrun the name buffer

  type word = x: int | 0 <= x < 0x1_0000

  type Entry = e: seq<byte> | |e| == ENTRY_SIZE witness seq(ENTRY_SIZE, i => 0)

  /** A UTF-16 unit that ends a field of a long-name entry (fat.c:20). */
  predicate Stops(u: nat) {
    u == 0xFFFF || u == 0
  }

  /** Where the 16-bit unit `j` of a long-name entry lies: chars1, chars2 or chars3. */
  function CharOffset(j: nat): nat {
    if j < 5 then 1 + 2 * j else if j < 11 then 14 + 2 * (j - 5) else 28 + 2 * (j - 11)
  }

  function CharAt(e: Entry, j: nat): nat
    requires j < PART
  {
    U16(e, CharOffset(j))
  }

  /** The first unit of the field that holds unit `j`. */
  function FieldStart(j: nat): nat {
    if j < 5 then 0 else if j < 11 then 5 else 11
  }

  /** The character that unit `j` contributes; zero behind a stop in the same field. */
  function NameByte(e: Entry, j: nat): byte
    requires j < PART
  {
    if exists i :: FieldStart(j) <= i <= j && Stops(CharAt(e, i)) then 0 else CharAt(e, j) % 0x100
  }

  /** The bytes that a run of long-name entries, in disk order, leaves in the name buffer. */
  function RawName(acc: seq<Entry>): (r: seq<byte>)
    ensures |r| == PART * |acc|
  {
    seq(PART * |acc|, k requires 0 <= k < PART * |acc| => NameByte(acc[|acc| - 1 - k / PART], k % PART))
  }

  /** The name as strcmp sees it. */
  function LongName(acc: seq<Entry>): seq<byte> {
    CStr(RawName(acc) + [0])
  }

  /** fat.c:18-23 on the units from `from` on, into `ascii` from `pos` on. */
  method Utf16ToUtf8(e: Entry, from: nat, ascii: array<byte>, pos: nat, length: nat)
    requires FieldStart(from) == from && from + length <= PART && pos + length <= ascii.Length
    requires forall j :: from <= j < from + length ==> FieldStart(j) == from
    requires forall k :: pos <= k < pos + length ==> ascii[k] == 0
    modifies ascii
    ensures forall k :: 0 <= k < ascii.Length ==>
      ascii[k] == if pos <= k < pos + length then NameByte(e, from + (k - pos)) else old(ascii[k])
  {
    var i := 0;
    while i < length
      invariant 0 <= i <= length
      invariant forall j :: from <= j < from + i ==> !Stops(CharAt(e, j))
      invariant forall k :: 0 <= k < ascii.Length ==>
        ascii[k] == if pos <= k < pos + i then NameByte(e, from + (k - pos)) else old(ascii[k])
    {
      if Stops(CharAt(e, from + i)) {
        break;
      }
      ascii[pos + i] := CharAt(e, from + i) % 0x100;
      i := i + 1;
    }
    if i < length {
      assert Stops(CharAt(e, from + i));
    }
  }

  lemma RawNameAt(acc: seq<Entry>, i: nat, j: nat)
    requires i < |acc| && j < PART
    ensures RawName(acc)[PART * i + j] == NameByte(acc[|acc| - 1 - i], j)
  {
    assert (PART * i + j) / PART == i && (PART * i + j) % PART == j;
  }

  /** fat.c:38-52 into a zeroed buffer. */
  method ReadLongFilename(lfnEntries: seq<Entry>, output: array<byte>)
    requires |lfnEntries| <= MAX_PARTS && output.Length == NAME_BUFFER
    requires forall k :: 0 <= k < output.Length ==> output[k] == 0
    modifies output
    ensures 0 in output[..] && CStr(output[..]) == LongName(lfnEntries)
  {
    ghost var raw := RawName(lfnEntries);
    var pos := 0;
    var i: int := |lfnEntries| - 1;
    while i >= 0
      invariant -1 <= i < |lfnEntries| && pos == PART * (|lfnEntries| - 1 - i)
      invariant forall k :: 0 <= k < output.Length ==> output[k] == if k < pos then raw[k] else 0
    {
      ReadPart(lfnEntries, |lfnEntries| - 1 - i, lfnEntries[i], output, pos);
      pos := pos + PART;
      i := i - 1;
    }
    output[pos] := 0;
    SameCStr(raw, output[..]);
  }

  /** One round of fat.c:43-48. */
  method ReadPart(ghost acc: seq<Entry>, ghost i: nat, e: Entry, output: array<byte>, pos: nat)
    requires i < |acc| <= MAX_PARTS && e == acc[|acc| - 1 - i] && pos == PART * i && output.Length == NAME_BUFFER
    requires forall k :: 0 <= k < output.Length ==> output[k] == if k < pos then RawName(acc)[k] else 0
    modifies output
    ensures forall k :: 0 <= k < output.Length ==> output[k] == if k < pos + PART then RawName(acc)[k] else 0
  {
    ghost var before := output[..];
    Utf16ToUtf8(e, 0, output, pos, 5);
    Utf16ToUtf8(e, 5, output, pos + 5, 6);
    Utf16ToUtf8(e, 11, output, pos + 11, 2);
    forall k | pos <= k < pos + PART
      ensures output[k] == RawName(acc)[k]
    {
      RawNameAt(acc, i, k - pos);
    }
  }

  lemma SameCStr(raw: seq<byte>, buf: seq<byte>)
    requires |raw| < |buf| && forall k :: 0 <= k < |buf| ==> buf[k] == if k < |raw| then raw[k] else 0
    ensures 0 in buf && CStr(buf) == CStr(raw + [0])
  {
    assert buf[|raw|] == 0;
    var n := |CStr(raw + [0])|;
    assert (raw + [0])[n] == 0;
    assert buf[..n] == (raw + [0])[..n];
    CStrUnique(buf, n);
  }

  // ---- writing a name ----

  /** (uint16_t) of a signed char (fat.c:30). */
  function Widen(c: byte): word {
    if c < 0x80 then c else 0xFF00 + c
  }

  function UnitByte(u: seq<word>, k: nat): byte
    requires k < 2 * |u|
  {
    if k % 2 == 0 then u[k / 2] % 0x100 else u[k / 2] / 0x100
  }

  /** Part `i` of `count` of the name in `utf16` (fat.c:359-370). */
  function Part(utf16: seq<word>, i: nat, count: nat, checksum: byte): (e: Entry)
    requires i < count <= 20 && PART * (i + 1) <= |utf16|
  {
    var u := utf16[PART * i..PART * (i + 1)];
    seq(ENTRY_SIZE, k requires 0 <= k < ENTRY_SIZE =>
      if k == 0 then i + 1 + (if i == count - 1 then 0x40 else 0)
      else if k < 11 then UnitByte(u, k - 1)
      else if k == 11 then 0x0F
      else if k == 13 then checksum
      else if 14 <= k < 26 then UnitByte(u, 10 + (k - 14))
      else if k >= 28 then UnitByte(u, 22 + (k - 28))
      else 0)
  }

  /** A long-name entry, field by field (include/filesystem/fat.h:65-74): part `i` of `count`, with
      these 13 units. */
  ghost predicate IsPart(e: Entry, i: nat, count: nat, checksum: byte, units: seq<word>)
    requires |units| == 13
  {
    && e[0] == i + 1 + (if i + 1 == count then 0x40 else 0)
    && e[11] == 0x0F && e[12] == 0 && e[13] == checksum && e[26] == 0 && e[27] == 0
    && U16(e, 1) == units[0] && U16(e, 3) == units[1] && U16(e, 5) == units[2]
    && U16(e, 7) == units[3] && U16(e, 9) == units[4]
    && U16(e, 14) == units[5] && U16(e, 16) == units[6] && U16(e, 18) == units[7]
    && U16(e, 20) == units[8] && U16(e, 22) == units[9] && U16(e, 24) == units[10]
    && U16(e, 28) == units[11] && U16(e, 30) == units[12]
  }

  lemma PartIs(utf16: seq<word>, i: nat, count: nat, checksum: byte)
    requires i < count <= 20 && PART * (i + 1) <= |utf16|
    ensures IsPart(Part(utf16, i, count, checksum), i, count, checksum, utf16[13 * i..13 * i + 13])
  {
    var e, u := Part(utf16, i, count, checksum), utf16[13 * i..13 * i + 13];
    forall j | 0 <= j < 13
      ensures U16(e, CharOffset(j)) == u[j]
    {
      PartChars(utf16, i, count, checksum, j);
    }
    assert U16(e, CharOffset(0)) == u[0] && U16(e, CharOffset(1)) == u[1] && U16(e, CharOffset(2)) == u[2];
    assert U16(e, CharOffset(3)) == u[3] && U16(e, CharOffset(4)) == u[4] && U16(e, CharOffset(5)) == u[5];
    assert U16(e, CharOffset(6)) == u[6] && U16(e, CharOffset(7)) == u[7] && U16(e, CharOffset(8)) == u[8];
    assert U16(e, CharOffset(9)) == u[9] && U16(e, CharOffset(10)) == u[10] && U16(e, CharOffset(11)) == u[11];
    assert U16(e, CharOffset(12)) == u[12];
    hide U16;
  }

  lemma PartChars(utf16: seq<word>, i: nat, count: nat, checksum: byte, j: nat)
    requires i < count <= 20 && PART * (i + 1) <= |utf16| && j < PART
    ensures CharAt(Part(utf16, i, count, checksum), j) == utf16[PART * i + j]
  {
    var u := utf16[PART * i..PART * (i + 1)];
    assert u[j] == utf16[PART * i + j];
    assert UnitByte(u, 2 * j) == u[j] % 0x100 && UnitByte(u, 2 * j + 1) == u[j] / 0x100;
  }

  /** How many long-name entries a name takes (fat.c:341). */
  function PartCount(name: seq<byte>): nat {
    (|name| + 12) / PART
  }

  /** `name_utf16` after fat.c:342-344: the name over whatever the stack held. */
  function NameUnits(name: seq<byte>, stack: seq<word>): (u: seq<word>)
    requires |name| <= |stack|
    ensures |u| == |stack| && u[|name|..] == stack[|name|..]
    ensures forall k :: 0 <= k < |name| ==> u[k] == if name[k] < 128 then name[k] else 0xFF00 + name[k] as int
  {
    seq(|stack|, k requires 0 <= k < |stack| => if k < |name| then Widen(name[k]) else stack[k])
  }

  /** The long-name entries of `name` in disk order, the last part first (fat.c:400-402). */
  function NameRun(name: seq<byte>, stack: seq<word>, checksum: byte): (r: seq<Entry>)
    requires |stack| == NAME_BUFFER && PartCount(name) <= MAX_PARTS
    ensures |r| == PartCount(name)
  {
    var n := PartCount(name);
    seq(n, k requires 0 <= k < n => Part(NameUnits(name, stack), n - 1 - k, n, checksum))
  }

  /** The entries for `name`, first part first: as many as it takes, numbered from 1, the last one
      marked, with the name's units and what follows them on the stack (fat.c:358-371). */
  ghost predicate Spells(lfns: seq<Entry>, name: seq<byte>, stack: seq<word>, checksum: byte) {
    && |name| <= 13 * |lfns| < |name| + 13 && |stack| >= 13 * |lfns| && |name| <= |stack|
    && forall i :: 0 <= i < |lfns| ==>
         IsPart(lfns[i], i, |lfns|, checksum, NameUnits(name, stack)[13 * i..13 * i + 13])
  }

  /** The same, last part first, as they lie on the disk (fat.c:400-402). */
  ghost predicate SpellsBack(run: seq<Entry>, name: seq<byte>, stack: seq<word>, checksum: byte) {
    && |name| <= 13 * |run| < |name| + 13 && |stack| >= 13 * |run| && |name| <= |stack|
    && forall k :: 0 <= k < |run| ==>
         IsPart(run[k], |run| - 1 - k, |run|, checksum,
                NameUnits(name, stack)[13 * (|run| - 1 - k)..13 * (|run| - 1 - k) + 13])
  }

  lemma RunSpells(name: seq<byte>, stack: seq<word>, checksum: byte)
    requires |stack| == NAME_BUFFER && PartCount(name) <= MAX_PARTS
    ensures SpellsBack(NameRun(name, stack, checksum), name, stack, checksum)
  {
    hide Part, IsPart, NameUnits;
    var n := PartCount(name);
    forall k | 0 <= k < n
      ensures IsPart(NameRun(name, stack, checksum)[k], n - 1 - k, n, checksum,
                     NameUnits(name, stack)[13 * (n - 1 - k)..13 * (n - 1 - k) + 13])
    {
      PartIs(NameUnits(name, stack), n - 1 - k, n, checksum);
    }
  }

  /** utf8_to_utf16 (fat.c:28-32), over what the buffer held. */
  method Utf8ToUtf16(name: seq<byte>, stack: seq<word>) returns (utf16: seq<word>)
    requires |name| <= |stack|
    ensures utf16 == NameUnits(name, stack)
  {
    utf16 := stack;
    var k := 0;
    while k < |name|
      invariant k <= |name| && |utf16| == |stack|
      invariant forall l :: 0 <= l < |utf16| ==> utf16[l] == if l < k then Widen(name[l]) else stack[l]
    {
      utf16 := utf16[k := Widen(name[k])];
      k := k + 1;
    }
  }

  /** fat.c:341-344, 356-371 */
  method EncodeLongName(name: seq<byte>, stack: seq<word>, checksum: byte) returns (lfns: seq<Entry>)
    requires |stack| == NAME_BUFFER && PartCount(name) <= MAX_PARTS
    ensures |lfns| == PartCount(name)
    ensures forall i :: 0 <= i < |lfns| ==> lfns[i] == NameRun(name, stack, checksum)[|lfns| - 1 - i]
    ensures Spells(lfns, name, stack, checksum)
  {
    hide NameUnits, Part, Spells;
    var utf16 := Utf8ToUtf16(name, stack);
    var lfnCount := (|name| + 12) / PART;
    lfns := [];
    while |lfns| < lfnCount
      invariant |lfns| <= lfnCount
      invariant forall i :: 0 <= i < |lfns| ==> lfns[i] == Part(utf16, i, lfnCount, checksum)
    {
      lfns := lfns + [Part(utf16, |lfns|, lfnCount, checksum)];
    }
    PartsSpell(lfns, name, stack, checksum);
  }

  lemma PartsSpell(lfns: seq<Entry>, name: seq<byte>, stack: seq<word>, checksum: byte)
    requires |stack| == NAME_BUFFER && |lfns| == PartCount(name) <= MAX_PARTS
    requires forall i :: 0 <= i < |lfns| ==> lfns[i] == Part(NameUnits(name, stack), i, |lfns|, checksum)
    ensures Spells(lfns, name, stack, checksum)
  {
    hide Part, IsPart, NameUnits;
    forall i | 0 <= i < |lfns|
      ensures IsPart(lfns[i], i, |lfns|, checksum, NameUnits(name, stack)[13 * i..13 * i + 13])
    {
      PartIs(NameUnits(name, stack), i, |lfns|, checksum);
    }
  }

  /** A name whose characters survive: none is 0 (the end) or 0xFF (which widens to 0xFFFF). */
  ghost predicate Encodable(name: seq<byte>) {
    PartCount(name) <= MAX_PARTS && forall k :: 0 <= k < |name| ==> 0 < name[k] < 0xFF
  }

  /** What follows the name on the stack ends it: nothing follows in the last entry, or the next
      unit reads as an end. */
  predicate Terminated(name: seq<byte>, stack: seq<word>)
    requires |name| < |stack|
  {
    |name| % PART == 0 || stack[|name|] == 0xFFFF || stack[|name|] % 0x100 == 0
  }

  lemma RunByte(name: seq<byte>, stack: seq<word>, checksum: byte, k: nat)
    requires |stack| == NAME_BUFFER && Encodable(name)
    requires k < PART * PartCount(name) && k <= |name|
    ensures RawName(NameRun(name, stack, checksum))[k] ==
            if k < |name| then name[k] else if Stops(stack[k]) then 0 else stack[k] % 0x100
  {
    hide RawName, Part, NameByte;
    var n, i, j := PartCount(name), k / PART, k % PART;
    var run, u := NameRun(name, stack, checksum), NameUnits(name, stack);
    RawNameAt(run, i, j);
    PartByte(u, i, n, checksum, j);
    forall l | PART * i <= l < k
      ensures !Stops(u[l])
    {
    }
    if k < |name| {
      assert Widen(name[k]) % 0x100 == name[k];
    }
  }

  lemma PartByte(u: seq<word>, i: nat, n: nat, checksum: byte, j: nat)
    requires i < n <= 20 && PART * (i + 1) <= |u| && j < PART
    ensures (forall l :: PART * i <= l < PART * i + j ==> !Stops(u[l])) ==>
      NameByte(Part(u, i, n, checksum), j) == if Stops(u[PART * i + j]) then 0 else u[PART * i + j] % 0x100
  {
    var e := Part(u, i, n, checksum);
    forall l | 0 <= l <= j
      ensures CharAt(e, l) == u[PART * i + l]
    {
      PartChars(u, i, n, checksum, l);
    }
  }

  /** Splitting a name into entries and reading them back gives the same name exactly when the
      unit behind the name is an end; the source leaves that unit to chance (fat.c:342-344). */
  lemma RoundTripIff(name: seq<byte>, stack: seq<word>, checksum: byte)
    requires |stack| == NAME_BUFFER && Encodable(name)
    ensures LongName(NameRun(name, stack, checksum)) == name <==> Terminated(name, stack)
  {
    var raw := RawName(NameRun(name, stack, checksum));
    var z := raw + [0];
    forall k | 0 <= k < |name|
      ensures z[k] == name[k]
    {
      RunByte(name, stack, checksum, k);
    }
    if |name| < |raw| {
      RunByte(name, stack, checksum, |name|);
    }
    if Terminated(name, stack) {
      assert z[|name|] == 0 && z[..|name|] == name;
      CStrUnique(z, |name|);
    } else {
      assert z[|name|] != 0;
    }
  }
}
