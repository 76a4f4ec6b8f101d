/** A directory as a row of 32-byte entries `es`: its readers' view of it, and what creating,
    deleting and rewriting entries do to that view (src/filesystem/fat.c:374-428, 443-497). */
module Directories {
  import opened Bytes
  import opened LongNames

  const SLOTS := 16             // entries per sector
  const DELETED := 0xE5
  const DOT := 46

  predicate Live(e: Entry) {
    e[0] != 0 && e[0] != DELETED
  }

  predicate IsLong(e: Entry) {
    e[11] % 0x10 == 0x0F
  }

  predicate IsDir(e: Entry) {
    e[11] / 0x10 % 2 == 1
  }

  /** The `.` and `..` entries. */
  predicate IsDot(e: Entry) {
    IsDir(e) && e[0] == DOT
  }

  function First(e: Entry): nat {
    U16(e, 20) * 0x1_0000 + U16(e, 26)
  }

  /** The first cluster as fat.c:480, 744, 815 and 936 put it together when compiled: shifting
      the high half right by 16 leaves nothing of it. */
  function FirstShifted(e: Entry, written: bool): nat {
    if written then U16(e, 20) / 0x1_0000 + U16(e, 26) else First(e)
  }

  /** The compiled expression is right exactly for clusters below 65536. */
  lemma FirstShiftedIff(e: Entry)
    ensures FirstShifted(e, true) == First(e) <==> First(e) < 0x1_0000
  {
  }

  function Size(e: Entry): nat {
    U32(e, 28)
  }

  /** The fields of directory_entry_fat32 (include/filesystem/fat.h:50-63), byte by byte. */
  lemma EntryFields(e: Entry)
    ensures First(e) == e[26] as int + 256 * e[27] as int + 65536 * (e[20] as int + 256 * e[21] as int)
    ensures Size(e) == e[28] as int + 256 * e[29] as int + 65536 * e[30] as int + 16777216 * e[31] as int
    ensures FirstShifted(e, true) == e[26] as int + 256 * e[27] as int
    ensures IsLong(e) <==>
      e[11] in {0x0F, 0x1F, 0x2F, 0x3F, 0x4F, 0x5F, 0x6F, 0x7F, 0x8F, 0x9F, 0xAF, 0xBF, 0xCF, 0xDF, 0xEF, 0xFF}
    ensures IsDir(e) <==> 0x10 <= e[11] % 0x20
    ensures IsDot(e) <==> 0x10 <= e[11] % 0x20 && e[0] == 46
    ensures Live(e) <==> e[0] != 0x00 && e[0] != 0xE5
  {
    LittleEndian(e, 28, 0);
  }

  function SetFirst(e: Entry, c: nat): (r: Entry)
    requires c < 0x1_0000_0000
    ensures First(r) == c && Size(r) == Size(e) && r[0] == e[0] && r[11] == e[11]
    ensures forall k :: 0 <= k < 20 || 22 <= k < 26 || 28 <= k < 32 ==> r[k] == e[k]
  {
    Patch(Patch(e, 20, Le16(c / 0x1_0000)), 26, Le16(c % 0x1_0000))
  }

  function SetSize(e: Entry, n: nat): (r: Entry)
    requires n < 0x1_0000_0000
    ensures Size(r) == n && First(r) == First(e) && r[0] == e[0] && r[11] == e[11]
    ensures forall k :: 0 <= k < 28 ==> r[k] == e[k]
  {
    PatchU32(e, 28, n, 28);
    Patch(e, 28, Le32(n))
  }

  function Delete(e: Entry): Entry {
    e[0 := DELETED]
  }

  // ---- sectors of entries ----

  function EntryAt(s: Sector, i: nat): Entry
    requires i < SLOTS
  {
    s[ENTRY_SIZE * i..ENTRY_SIZE * i + ENTRY_SIZE]
  }

  function Slots(s: Sector): (es: seq<Entry>)
    ensures |es| == SLOTS
  {
    seq(SLOTS, i requires 0 <= i < SLOTS => EntryAt(s, i))
  }

  function Pack(es: seq<Entry>): Sector
    requires |es| == SLOTS
  {
    seq(SECTOR_SIZE, k requires 0 <= k < SECTOR_SIZE => es[k / ENTRY_SIZE][k % ENTRY_SIZE])
  }

  /** Entry `i` of a sector begins at byte 32 * i. */
  lemma SlotBytes(s: Sector, i: nat, k: nat)
    requires i < 16 && k < 32
    ensures Slots(s)[i][k] == s[32 * i + k]
  {
  }

  lemma SlotsOfPack(es: seq<Entry>)
    requires |es| == SLOTS
    ensures Slots(Pack(es)) == es
  {
    forall i | 0 <= i < SLOTS
      ensures EntryAt(Pack(es), i) == es[i]
    {
      forall k | 0 <= k < ENTRY_SIZE
        ensures EntryAt(Pack(es), i)[k] == es[i][k]
      {
        assert (ENTRY_SIZE * i + k) / ENTRY_SIZE == i && (ENTRY_SIZE * i + k) % ENTRY_SIZE == k;
      }
    }
  }

  function AllSlots(ss: seq<Sector>): (es: seq<Entry>)
    ensures |es| == SLOTS * |ss|
  {
    seq(SLOTS * |ss|, k requires 0 <= k < SLOTS * |ss| => EntryAt(ss[k / SLOTS], k % SLOTS))
  }

  lemma AllSlotsAt(ss: seq<Sector>, m: nat)
    requires m < |ss|
    ensures AllSlots(ss)[SLOTS * m..SLOTS * m + SLOTS] == Slots(ss[m])
  {
    forall i | 0 <= i < SLOTS
      ensures AllSlots(ss)[SLOTS * m + i] == EntryAt(ss[m], i)
    {
      assert (SLOTS * m + i) / SLOTS == m && (SLOTS * m + i) % SLOTS == i;
    }
  }

  lemma AllSlotsUpdate(ss: seq<Sector>, tt: seq<Sector>, m: nat)
    requires m < |ss| == |tt| && forall q :: 0 <= q < |ss| && q != m ==> tt[q] == ss[q]
    ensures forall k :: 0 <= k < SLOTS * |ss| ==>
      AllSlots(tt)[k] == if SLOTS * m <= k < SLOTS * m + SLOTS then Slots(tt[m])[k - SLOTS * m] else AllSlots(ss)[k]
  {
    forall k | 0 <= k < SLOTS * |ss|
      ensures AllSlots(tt)[k] ==
              if SLOTS * m <= k < SLOTS * m + SLOTS then Slots(tt[m])[k - SLOTS * m] else AllSlots(ss)[k]
    {
      var q := k / SLOTS;
      assert AllSlots(tt)[k] == EntryAt(tt[q], k - SLOTS * q);
    }
  }

  function Insert<T>(s: seq<T>, j: nat, x: T): seq<T>
    requires j <= |s|
  {
    s[..j] + [x] + s[j..]
  }

  function Remove<T>(s: seq<T>, j: nat): seq<T>
    requires j < |s|
  {
    s[..j] + s[j + 1..]
  }

  lemma InsertCons<T>(a: T, s: seq<T>, j: nat, x: T)
    requires j <= |s|
    ensures Insert([a] + s, j + 1, x) == [a] + Insert(s, j, x)
  {
  }

  lemma RemoveCons<T>(a: T, s: seq<T>, j: nat)
    requires j < |s|
    ensures Remove([a] + s, j + 1) == [a] + Remove(s, j)
  {
  }

  // ---- what readers make of the entries ----

  /** A file or directory found in a directory: its long name, if it has one, where its short
      entry is, and how many long-name entries lie in front of that. */
  datatype Item = Item(name: Option<seq<byte>>, at: nat, run: nat)

  function NameOf(acc: seq<Entry>): Option<seq<byte>> {
    if acc == [] then None else Some(LongName(acc))
  }

  /** The items from entry `i` on, with `run` long-name entries collected before it. Reading ends
      at the first entry that begins with zero. */
  function Items(es: seq<Entry>, i: nat, run: nat): (r: seq<Item>)
    requires run <= i <= |es|
    decreases |es| - i
  {
    if i == |es| || es[i][0] == 0 then []
    else if es[i][0] == DELETED then Items(es, i + 1, 0)
    else if IsLong(es[i]) then Items(es, i + 1, run + 1)
    else (if IsDot(es[i]) then [] else [Item(NameOf(es[i - run..i]), i, run)]) + Items(es, i + 1, 0)
  }

  /** Long-name entries stand right before their short entry, in its sector, and behind the
      first zero entry there are only zero entries. */
  ghost predicate Tidy(es: seq<Entry>, i: nat, run: nat)
    requires run <= i <= |es|
    decreases |es| - i
  {
    run <= i % SLOTS &&
    if i == |es| then run == 0
    else if es[i][0] == 0 then run == 0 && forall k :: i <= k < |es| ==> es[k][0] == 0
    else if es[i][0] == DELETED then run == 0 && Tidy(es, i + 1, 0)
    else if IsLong(es[i]) then i % SLOTS < SLOTS - 1 && Tidy(es, i + 1, run + 1)
    else (IsDot(es[i]) ==> run == 0) && Tidy(es, i + 1, 0)
  }

  /** `n` long-name entries and a short one. */
  ghost predicate Run(es: seq<Entry>, from: nat, n: nat) {
    && from + n < |es|
    && (forall k :: from <= k < from + n ==> Live(es[k]) && IsLong(es[k]))
    && Live(es[from + n]) && !IsLong(es[from + n]) && !IsDot(es[from + n])
  }

  /** One step of reading. */
  lemma ItemsStep(es: seq<Entry>, i: nat, run: nat)
    requires run <= i < |es|
    ensures es[i][0] == 0 ==> Items(es, i, run) == []
    ensures es[i][0] == DELETED ==> Items(es, i, run) == Items(es, i + 1, 0)
    ensures Live(es[i]) && IsLong(es[i]) ==> Items(es, i, run) == Items(es, i + 1, run + 1)
    ensures Live(es[i]) && !IsLong(es[i]) && IsDot(es[i]) ==> Items(es, i, run) == Items(es, i + 1, 0)
    ensures Live(es[i]) && !IsLong(es[i]) && !IsDot(es[i]) ==>
      Items(es, i, run) == [Item(NameOf(es[i - run..i]), i, run)] + Items(es, i + 1, 0)
  {
    hide NameOf;
  }

  lemma TidyStep(es: seq<Entry>, i: nat, run: nat)
    requires run <= i < |es|
    ensures Tidy(es, i, run) <==>
            && run <= i % SLOTS
            && (es[i][0] == 0 ==> run == 0 && forall k :: i <= k < |es| ==> es[k][0] == 0)
            && (es[i][0] == DELETED ==> run == 0 && Tidy(es, i + 1, 0))
            && (Live(es[i]) && IsLong(es[i]) ==> i % SLOTS < SLOTS - 1 && Tidy(es, i + 1, run + 1))
            && (Live(es[i]) && !IsLong(es[i]) ==> (IsDot(es[i]) ==> run == 0) && Tidy(es, i + 1, 0))
  {
  }

  lemma SliceSame(es: seq<Entry>, es': seq<Entry>, a: nat, b: nat)
    requires a <= b <= |es| == |es'| && forall k :: a <= k < b ==> es[k] == es'[k]
    ensures es[a..b] == es'[a..b]
  {
  }

  lemma {:induction false} ItemsFrame(es: seq<Entry>, es': seq<Entry>, i: nat, run: nat)
    requires run <= i <= |es| == |es'|
    requires forall k :: i - run <= k < |es| ==> es[k] == es'[k]
    ensures Items(es, i, run) == Items(es', i, run)
    ensures Tidy(es, i, run) <==> Tidy(es', i, run)
    decreases |es| - i
  {
    if i < |es| {
      ItemsStep(es, i, run);
      ItemsStep(es', i, run);
      TidyStep(es, i, run);
      TidyStep(es', i, run);
      SliceSame(es, es', i - run, i);
      hide Items, Tidy, NameOf, IsLong, IsDot;
      if es[i][0] != 0 {
        ItemsFrame(es, es', i + 1, if Live(es[i]) && IsLong(es[i]) then run + 1 else 0);
      }
    }
  }

  lemma SameSector(from: nat, n: nat, i: nat)
    requires from / SLOTS == (from + n) / SLOTS && from <= i <= from + n
    ensures i % SLOTS == from % SLOTS + (i - from)
  {
  }

  /** Reading through a run yields its item. */
  lemma {:induction false} RunItems(es: seq<Entry>, from: nat, n: nat, i: nat)
    requires Run(es, from, n) && from <= i <= from + n
    requires from / SLOTS == (from + n) / SLOTS
    ensures Items(es, i, i - from) == [Item(NameOf(es[from..from + n]), from + n, n)] + Items(es, from + n + 1, 0)
    ensures Tidy(es, from + n + 1, 0) ==> Tidy(es, i, i - from)
    decreases from + n - i
  {
    hide NameOf, Items, Tidy, IsLong, IsDot;
    SameSector(from, n, i);
    SameSector(from, n, from + n);
    ItemsStep(es, i, i - from);
    TidyStep(es, i, i - from);
    if i < from + n {
      RunItems(es, from, n, i + 1);
    }
  }

  /** Reading through free entries yields nothing. */
  lemma {:induction false} FreeItems(es: seq<Entry>, i: nat, q: nat)
    requires i <= q <= |es| && Tidy(es, i, 0)
    requires forall k :: i <= k < q ==> !Live(es[k])
    ensures Items(es, i, 0) == Items(es, q, 0) && Tidy(es, q, 0)
    decreases q - i
  {
    if i < q {
      if es[i][0] == DELETED {
        FreeItems(es, i + 1, q);
      }
    }
  }

  // ---- creating ----

  /** `es'` is `es` with a run of `n` + 1 entries put over free entries from `p` on. */
  ghost predicate Created(es: seq<Entry>, es': seq<Entry>, p: nat, n: nat) {
    && |es'| == |es| && p + n < |es| && p / SLOTS == (p + n) / SLOTS
    && (forall k :: p <= k <= p + n ==> !Live(es[k]))
    && (forall k :: 0 <= k < |es| && !(p <= k <= p + n) ==> es'[k] == es[k])
    && Run(es', p, n)
  }

  lemma CreatedHere(es: seq<Entry>, es': seq<Entry>, p: nat, n: nat)
    requires Created(es, es', p, n) && Tidy(es, p, 0)
    ensures Tidy(es', p, 0)
    ensures Items(es', p, 0) == [Item(NameOf(es'[p..p + n]), p + n, n)] + Items(es, p, 0)
  {
    FreeItems(es, p, p + n + 1);
    ItemsFrame(es, es', p + n + 1, 0);
    RunItems(es', p, n, p);
    assert p % SLOTS >= 0;
  }

  /** A created run becomes one more item, if the readers get that far. */
  lemma {:induction false} CreatedItems(es: seq<Entry>, es': seq<Entry>, p: nat, n: nat, i: nat, run: nat)
    returns (j: nat)
    requires Created(es, es', p, n) && run <= i <= p && Tidy(es, i, run)
    requires forall k :: i <= k < p ==> es[k][0] != 0
    ensures j <= |Items(es, i, run)| && Tidy(es', i, run)
    ensures Items(es', i, run) == Insert(Items(es, i, run), j, Item(NameOf(es'[p..p + n]), p + n, n))
    decreases p - i
  {
    hide Items, Tidy, NameOf, IsLong, IsDot, Run, Insert;
    ghost var x := Item(NameOf(es'[p..p + n]), p + n, n);
    if i == p {
      TidyRun(es, p, run);
      CreatedHere(es, es', p, n);
      j := 0;
      InsertFirst(Items(es, p, 0), x);
    } else {
      ItemsStep(es, i, run);
      ItemsStep(es', i, run);
      TidyStep(es, i, run);
      TidyStep(es', i, run);
      SliceSame(es, es', i - run, i);
      j := CreatedItems(es, es', p, n, i + 1, if Live(es[i]) && IsLong(es[i]) then run + 1 else 0);
      if Live(es[i]) && !IsLong(es[i]) && !IsDot(es[i]) {
        InsertCons(Item(NameOf(es[i - run..i]), i, run), Items(es, i + 1, 0), j, x);
        j := j + 1;
      }
    }
  }

  lemma InsertFirst<T>(s: seq<T>, x: T)
    ensures Insert(s, 0, x) == [x] + s
  {
  }

  /** Before a free entry nothing is in hand. */
  lemma TidyRun(es: seq<Entry>, p: nat, run: nat)
    requires run <= p < |es| && Tidy(es, p, run) && !Live(es[p])
    ensures run == 0
  {
  }

  // ---- deleting ----

  /** `es'` is `es` with the short entry at `a` and the `r` entries before it marked deleted. */
  ghost predicate Erased(es: seq<Entry>, es': seq<Entry>, a: nat, r: nat) {
    && |es'| == |es| && r <= a < |es|
    && forall k :: 0 <= k < |es| ==> es'[k] == if a - r <= k <= a then es[k][0 := 0xE5] else es[k]
  }

  /** The entries that an item takes: long-name entries right before the short one, in one sector. */
  ghost predicate ItemPlace(es: seq<Entry>, x: Item) {
    x.at < |es| && x.run <= x.at % SLOTS && Run(es, x.at - x.run, x.run)
  }

  lemma ItemHere(es: seq<Entry>, i: nat, run: nat)
    requires run <= i < |es| && Tidy(es, i, run) && Live(es[i]) && !IsLong(es[i]) && !IsDot(es[i])
    requires forall k :: i - run <= k < i ==> Live(es[k]) && IsLong(es[k])
    ensures ItemPlace(es, Item(NameOf(es[i - run..i]), i, run))
  {
    hide NameOf;
  }

  /** Where an item lies. */
  lemma {:induction false} ItemShape(es: seq<Entry>, i: nat, run: nat, j: nat)
    requires run <= i <= |es| && Tidy(es, i, run) && j < |Items(es, i, run)|
    requires forall k :: i - run <= k < i ==> Live(es[k]) && IsLong(es[k])
    ensures var x := Items(es, i, run)[j];
      ItemPlace(es, x) && i <= x.at && x.run <= x.at && (x.at - x.run == i - run || i <= x.at - x.run)
    decreases |es| - i
  {
    hide NameOf, Items, Tidy, ItemPlace, IsLong, IsDot;
    NotAtEnd(es, i, run, j);
    ItemsStep(es, i, run);
    TidyStep(es, i, run);
    if Live(es[i]) && !IsLong(es[i]) && !IsDot(es[i]) {
      ItemHere(es, i, run);
    }
    if Live(es[i]) && IsLong(es[i]) {
      ItemShape(es, i + 1, run + 1, j);
    } else if es[i][0] == DELETED || IsDot(es[i]) {
      ItemShape(es, i + 1, 0, j);
    } else if j > 0 {
      ItemShape(es, i + 1, 0, j - 1);
    }
  }

  lemma {:induction false} ErasedRun(es: seq<Entry>, a: nat, r: nat, i: nat)
    requires r <= a < |es| && a - r <= i <= a + 1 && i <= |es|
    requires forall k :: a - r <= k <= a ==> es[k][0] == DELETED
    requires r <= a % SLOTS
    ensures Items(es, i, 0) == Items(es, a + 1, 0)
    ensures Tidy(es, a + 1, 0) ==> Tidy(es, i, 0)
    decreases a + 1 - i
  {
    if i <= a {
      ErasedRun(es, a, r, i + 1);
    }
  }

  lemma ErasedHere(es: seq<Entry>, es': seq<Entry>, a: nat, r: nat)
    requires Erased(es, es', a, r) && Run(es, a - r, r) && r <= a % SLOTS && Tidy(es, a - r, 0)
    ensures Items(es, a - r, 0) == [Item(NameOf(es[a - r..a]), a, r)] + Items(es', a - r, 0)
    ensures Tidy(es', a - r, 0)
  {
    RunItems(es, a - r, r, a - r);
    RunTidy(es, a - r, r, a - r);
    ItemsFrame(es, es', a + 1, 0);
    ErasedRun(es', a, r, a - r);
  }

  lemma {:induction false} RunTidy(es: seq<Entry>, from: nat, n: nat, i: nat)
    requires Run(es, from, n) && from <= i <= from + n && Tidy(es, i, i - from)
    ensures Tidy(es, from + n + 1, 0)
    decreases from + n - i
  {
    if i < from + n {
      RunTidy(es, from, n, i + 1);
    }
  }

  /** Deleting an item's entries removes that item and no other. */
  lemma {:induction false} ErasedItems(es: seq<Entry>, es': seq<Entry>, i: nat, run: nat, j: nat)
    requires run <= i <= |es| && Tidy(es, i, run) && j < |Items(es, i, run)|
    requires forall k :: i - run <= k < i ==> Live(es[k]) && IsLong(es[k])
    requires var x := Items(es, i, run)[j]; Erased(es, es', x.at, x.run) && i <= x.at - x.run
    ensures Tidy(es', i, run)
    ensures Items(es', i, run) == Remove(Items(es, i, run), j)
    decreases |es| - i
  {
    var x := Items(es, i, run)[j];
    ItemShape(es, i, run, j);
    if i == x.at - x.run {
      PlaceIsRun(es, x);
      hide Items, Tidy, NameOf, Erased;
      ErasedFirst(es, es', i, run, j);
    } else {
      var run1, j1 := NextItem(es, i, run, j);
      hide Items, Tidy, NameOf, ItemPlace, Remove, Erased;
      ItemShape(es, i + 1, run1, j1);
      ErasedItems(es, es', i + 1, run1, j1);
      ErasedStep(es, es', i, run, j, run1, j1);
    }
  }

  /** Reading one entry further towards item `j`. */
  lemma NextItem(es: seq<Entry>, i: nat, run: nat, j: nat) returns (run1: nat, j1: nat)
    requires run <= i <= |es| && Tidy(es, i, run) && j < |Items(es, i, run)|
    requires forall k :: i - run <= k < i ==> Live(es[k]) && IsLong(es[k])
    requires Items(es, i, run)[j].at - Items(es, i, run)[j].run > i
    ensures i < |es| && run1 <= i + 1 && Tidy(es, i + 1, run1) && j1 < |Items(es, i + 1, run1)|
    ensures forall k :: i + 1 - run1 <= k < i + 1 ==> Live(es[k]) && IsLong(es[k])
    ensures Items(es, i + 1, run1)[j1] == Items(es, i, run)[j]
    ensures run1 == if Live(es[i]) && IsLong(es[i]) then run + 1 else 0
    ensures j == if Live(es[i]) && !IsLong(es[i]) && !IsDot(es[i]) then j1 + 1 else j1
  {
    hide Items, Tidy, NameOf, IsLong, IsDot;
    NotAtEnd(es, i, run, j);
    ItemsStep(es, i, run);
    TidyStep(es, i, run);
    run1 := if Live(es[i]) && IsLong(es[i]) then run + 1 else 0;
    j1 := if Live(es[i]) && !IsLong(es[i]) && !IsDot(es[i]) then j - 1 else j;
  }

  lemma NotAtEnd(es: seq<Entry>, i: nat, run: nat, j: nat)
    requires run <= i <= |es| && j < |Items(es, i, run)|
    ensures i < |es|
  {
  }

  lemma ErasedStep(es: seq<Entry>, es': seq<Entry>, i: nat, run: nat, j: nat, run1: nat, j1: nat)
    requires run <= i < |es| && Tidy(es, i, run) && j < |Items(es, i, run)| && run1 <= i + 1
    requires var x := Items(es, i, run)[j]; ItemPlace(es, x) && Erased(es, es', x.at, x.run) && i < x.at - x.run
    requires run1 == if Live(es[i]) && IsLong(es[i]) then run + 1 else 0
    requires j == if Live(es[i]) && !IsLong(es[i]) && !IsDot(es[i]) then j1 + 1 else j1
    requires j1 < |Items(es, i + 1, run1)| && Tidy(es', i + 1, run1)
    requires Items(es', i + 1, run1) == Remove(Items(es, i + 1, run1), j1)
    ensures Tidy(es', i, run) && Items(es', i, run) == Remove(Items(es, i, run), j)
  {
    var x := Items(es, i, run)[j];
    ItemsStep(es, i, run);
    ItemsStep(es', i, run);
    TidyStep(es, i, run);
    TidyStep(es', i, run);
    SliceSame(es, es', i - run, i);
    ErasedZeros(es, es', x, i);
    assert es'[i] == es[i];
    hide Items, Tidy, NameOf, IsLong, IsDot, ItemPlace, Remove, Erased;
    if Live(es[i]) && !IsLong(es[i]) && !IsDot(es[i]) {
      RemoveCons(Item(NameOf(es[i - run..i]), i, run), Items(es, i + 1, 0), j - 1);
    }
  }

  lemma PlaceIsRun(es: seq<Entry>, x: Item)
    requires ItemPlace(es, x)
    ensures Run(es, x.at - x.run, x.run) && x.run <= x.at % SLOTS
  {
  }

  lemma ErasedZeros(es: seq<Entry>, es': seq<Entry>, x: Item, i: nat)
    requires ItemPlace(es, x) && Erased(es, es', x.at, x.run) && i < x.at - x.run
    ensures |es'| == |es| && es[i][0] == 0 ==> es'[i][0] == 0
    ensures (forall k :: i <= k < |es| ==> es[k][0] == 0) ==> forall k :: i <= k < |es'| ==> es'[k][0] == 0
  {
  }

  lemma ErasedFirst(es: seq<Entry>, es': seq<Entry>, i: nat, run: nat, j: nat)
    requires run <= i <= |es| && Tidy(es, i, run) && j < |Items(es, i, run)|
    requires forall k :: i - run <= k < i ==> Live(es[k]) && IsLong(es[k])
    requires var x := Items(es, i, run)[j];
      Erased(es, es', x.at, x.run) && i == x.at - x.run && Run(es, i, x.run) && x.run <= x.at % SLOTS
    ensures Tidy(es', i, run) && Items(es', i, run) == Remove(Items(es, i, run), j)
  {
    hide NameOf;
    var x := Items(es, i, run)[j];
    RunFirst(es, i, run, x.run);
    if j > 0 {
      ItemsAscend(es, i, run, 0, j);
    }
    ErasedHere(es, es', x.at, x.run);
  }

  /** From inside or in front of a run, its item comes first, with everything collected. */
  lemma {:induction false} RunFirst(es: seq<Entry>, i: nat, run: nat, more: nat)
    requires run <= i && Run(es, i, more) && Tidy(es, i, run)
    ensures Items(es, i, run) ==
            [Item(NameOf(es[i - run..i + more]), i + more, run + more)] + Items(es, i + more + 1, 0)
    decreases more
  {
    hide NameOf;
    if more > 0 {
      RunFirst(es, i + 1, run + 1, more - 1);
    }
  }

  lemma {:induction false} ItemsAscend(es: seq<Entry>, i: nat, run: nat, j: nat, k: nat)
    requires run <= i <= |es| && j < k < |Items(es, i, run)|
    ensures i <= Items(es, i, run)[j].at < Items(es, i, run)[k].at
    decreases |es| - i
  {
    hide NameOf;
    if Live(es[i]) && IsLong(es[i]) {
      ItemsAscend(es, i + 1, run + 1, j, k);
    } else if es[i][0] == DELETED || IsDot(es[i]) {
      ItemsAscend(es, i + 1, 0, j, k);
    } else if j > 0 {
      ItemsAscend(es, i + 1, 0, j - 1, k - 1);
    } else {
      ItemsBegin(es, i + 1, 0, k - 1);
    }
  }

  lemma {:induction false} ItemsBegin(es: seq<Entry>, i: nat, run: nat, k: nat)
    requires run <= i <= |es| && k < |Items(es, i, run)|
    ensures i <= Items(es, i, run)[k].at < |es|
    decreases |es| - i
  {
    hide NameOf;
    if Live(es[i]) && IsLong(es[i]) {
      ItemsBegin(es, i + 1, run + 1, k);
    } else if es[i][0] == DELETED || IsDot(es[i]) {
      ItemsBegin(es, i + 1, 0, k);
    } else if k > 0 {
      ItemsBegin(es, i + 1, 0, k - 1);
    }
  }

  // ---- rewriting an entry's size and first cluster ----

  lemma {:induction false} UpdatedItems(es: seq<Entry>, a: nat, e: Entry, i: nat, run: nat)
    requires run <= i <= |es| && a < |es| && !IsLong(es[a]) && (a < i - run || i <= a)
    requires e[0] == es[a][0] && e[11] == es[a][11]
    ensures Items(es[a := e], i, run) == Items(es, i, run)
    ensures Tidy(es, i, run) ==> Tidy(es[a := e], i, run)
    decreases |es| - i
  {
    hide NameOf;
    if i < |es| && es[i][0] != 0 {
      if Live(es[i]) && IsLong(es[i]) {
        UpdatedItems(es, a, e, i + 1, run + 1);
      } else {
        assert es[a := e][i - run..i] == es[i - run..i];
        UpdatedItems(es, a, e, i + 1, 0);
      }
    }
  }
}