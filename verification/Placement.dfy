/** When creation puts a new entry run where it does no harm (fat.c:380-417, 587-624). */
module Placement {
  import opened Bytes
  import opened LongNames
  import opened Directories
  import opened SlotScan
  import Volumes

  /** Dot entries are no items, but a directory needs them. */
  predicate IsDotEntry(e: Entry) {
    Live(e) && !IsLong(e) && IsDot(e)
  }

  /** The run of `n` long-name entries and a short one was put from entry `p` on, in one sector,
      whatever stood there. */
  ghost predicate PutThere(es: seq<Entry>, es': seq<Entry>, p: nat, n: nat) {
    && |es'| == |es| && p + n < |es| && p / SLOTS == (p + n) / SLOTS
    && (forall k :: 0 <= k < |es| && !(p <= k <= p + n) ==> es'[k] == es[k])
    && Run(es', p, n) && !Live(es[p])
  }

  /** Readers see the new item, the old ones as they were, and the dot entries are still there. */
  ghost predicate OneMore(es: seq<Entry>, es': seq<Entry>, x: Item)
    requires |es| == |es'|
  {
    && OneMoreItem(Items(es, 0, 0), Items(es', 0, 0), x)
    && forall k :: 0 <= k < |es| && IsDotEntry(es[k]) ==> es'[k] == es[k]
  }

  ghost predicate OneMoreItem(xs: seq<Item>, xs': seq<Item>, x: Item) {
    exists j: nat :: Inserted(xs, xs', j, x)
  }

  ghost predicate Inserted(xs: seq<Item>, xs': seq<Item>, j: nat, x: Item) {
    j <= |xs| && xs' == Insert(xs, j, x)
  }

  ghost predicate FreeThere(es: seq<Entry>, p: nat, n: nat)
    requires p + n < |es|
  {
    (forall k :: p <= k <= p + n ==> !Live(es[k])) && forall k :: 0 <= k < p ==> es[k][0] != 0
  }

  /** How many items there are does not depend on what was collected before. */
  lemma {:induction false} CountOnly(es: seq<Entry>, i: nat, run: nat)
    requires run <= i <= |es|
    ensures |Items(es, i, run)| == |Items(es, i, 0)|
    decreases |es| - i
  {
    hide NameOf;
    if i < |es| && es[i][0] != 0 && es[i][0] != DELETED && IsLong(es[i]) {
      CountOnly(es, i + 1, run + 1);
      CountOnly(es, i + 1, 1);
    }
  }

  lemma {:induction false} ItemsFewer(es: seq<Entry>, i: nat, run: nat, e: nat)
    requires run <= i <= e <= |es| && Tidy(es, i, run)
    ensures |Items(es, e, 0)| <= |Items(es, i, run)|
    decreases e - i
  {
    hide NameOf;
    if i == e {
      CountOnly(es, i, run);
    } else if es[i][0] == 0 {
      ZeroItems(es, i, e);
    } else {
      ItemsFewer(es, i + 1, if Live(es[i]) && IsLong(es[i]) then run + 1 else 0, e);
    }
  }

  lemma ZeroItems(es: seq<Entry>, i: nat, e: nat)
    requires i <= e <= |es| && forall k :: i <= k < |es| ==> es[k][0] == 0
    ensures Items(es, e, 0) == []
  {
  }

  /** A short entry on the way is one item more. */
  lemma {:induction false} ShortCounts(es: seq<Entry>, i: nat, run: nat, a: nat, e: nat)
    requires run <= i <= a < e <= |es| && Tidy(es, i, run)
    requires Live(es[a]) && !IsLong(es[a]) && !IsDot(es[a])
    ensures |Items(es, e, 0)| + 1 <= |Items(es, i, run)|
    decreases a - i
  {
    hide NameOf;
    if i == a {
      ItemsFewer(es, i + 1, 0, e);
    } else {
      ShortCounts(es, i + 1, if Live(es[i]) && IsLong(es[i]) then run + 1 else 0, a, e);
    }
  }

  /** Up to `p` both read the same. */
  lemma {:induction false} SameFront(es: seq<Entry>, es': seq<Entry>, i: nat, run: nat, p: nat)
    requires run <= i <= p < |es| == |es'| && Tidy(es, i, run) && !Live(es[p])
    requires forall k :: 0 <= k < p ==> es'[k] == es[k]
    requires forall k :: i <= k < p ==> es[k][0] != 0
    ensures |Items(es', i, run)| + |Items(es, p, 0)| == |Items(es, i, run)| + |Items(es', p, 0)|
    decreases p - i
  {
    hide NameOf;
    if i < p {
      SameFront(es, es', i + 1, if Live(es[i]) && IsLong(es[i]) then run + 1 else 0, p);
    }
  }

  /** An end mark on the way hides everything behind it. */
  lemma {:induction false} Hidden(es: seq<Entry>, es': seq<Entry>, i: nat, run: nat, z: nat)
    requires run <= i <= z < |es| == |es'| && es[z][0] == 0
    requires forall k :: 0 <= k <= z ==> es'[k] == es[k]
    ensures Items(es', i, run) == Items(es, i, run)
    decreases z - i
  {
    hide NameOf;
    assert es'[i - run..i] == es[i - run..i];
    if es[i][0] != 0 {
      Hidden(es, es', i + 1, if Live(es[i]) && IsLong(es[i]) then run + 1 else 0, z);
    }
  }

  /** Collected long-name entries belong to the next item. */
  lemma {:induction false} RunOwner(es: seq<Entry>, i: nat, run: nat)
    requires 0 < run <= i <= |es| && Tidy(es, i, run)
    ensures Items(es, i, run) != [] && i <= Items(es, i, run)[0].at
    ensures Items(es, i, run)[0].at - Items(es, i, run)[0].run == i - run
    decreases |es| - i
  {
    hide NameOf;
    if IsLong(es[i]) {
      RunOwner(es, i + 1, run + 1);
    }
  }

  lemma {:induction false} LongOwned(es: seq<Entry>, i: nat, run: nat, k: nat) returns (l: nat)
    requires run <= i <= k < |es| && Tidy(es, i, run) && Live(es[k]) && IsLong(es[k])
    ensures l < |Items(es, i, run)| && Items(es, i, run)[l].at - Items(es, i, run)[l].run <= k < Items(es, i, run)[l].at
    decreases k - i
  {
    hide Items, Tidy, NameOf, IsLong, IsDot;
    ItemsStep(es, i, run);
    TidyStep(es, i, run);
    if es[i][0] == 0 {
      AnyZero(es, i, run, i, k);
    }
    if i == k {
      RunOwner(es, i + 1, run + 1);
      l := 0;
    } else if es[i][0] == DELETED || (!IsLong(es[i]) && IsDot(es[i])) {
      l := LongOwned(es, i + 1, 0, k);
    } else if IsLong(es[i]) {
      l := LongOwned(es, i + 1, run + 1, k);
    } else {
      var later := LongOwned(es, i + 1, 0, k);
      l := later + 1;
      assert Items(es, i, run)[l] == Items(es, i + 1, 0)[later];
    }
  }

  /** What an item collected are long-name entries. */
  lemma {:induction false} CollectsLong(es: seq<Entry>, i: nat, run: nat, j: nat)
    requires run <= i <= |es| && j < |Items(es, i, run)|
    requires forall k :: i - run <= k < i ==> IsLong(es[k])
    ensures var x := Items(es, i, run)[j]; x.run <= x.at <= |es| && forall k :: x.at - x.run <= k < x.at ==>
      IsLong(es[k])
    decreases |es| - i
  {
    hide NameOf;
    if Live(es[i]) && IsLong(es[i]) {
      CollectsLong(es, i + 1, run + 1, j);
    } else if es[i][0] == DELETED || IsDot(es[i]) {
      CollectsLong(es, i + 1, 0, j);
    } else if j > 0 {
      CollectsLong(es, i + 1, 0, j - 1);
    }
  }

  lemma InsertHas<T>(s: seq<T>, j: nat, x: T, l: nat) returns (k: nat)
    requires j <= |s| && l < |s|
    ensures k < |Insert(s, j, x)| && Insert(s, j, x)[k] == s[l] && k != j
  {
    k := if l < j then l else l + 1;
  }

  /** A long-name entry overwritten: its item has lost part of its name. */
  lemma LongLost(es: seq<Entry>, es': seq<Entry>, p: nat, n: nat, k: nat)
    requires Tidy(es, 0, 0) && PutThere(es, es', p, n) && p <= k <= p + n && Live(es[k]) && IsLong(es[k])
    requires forall a :: p <= a <= p + n ==> !(Live(es[a]) && !IsLong(es[a]) && !IsDot(es[a]))
    ensures !OneMore(es, es', Item(NameOf(es'[p..p + n]), p + n, n))
  {
    hide NameOf, Tidy, Items, Insert;
    if OneMore(es, es', Item(NameOf(es'[p..p + n]), p + n, n)) {
      var l := LongOwned(es, 0, 0, k);
      var y := Items(es, 0, 0)[l];
      ItemIsShort(es, 0, 0, l);
      var j: nat :| Inserted(Items(es, 0, 0), Items(es', 0, 0), j, Item(NameOf(es'[p..p + n]), p + n, n));
      var i := InsertHas(Items(es, 0, 0), j, Item(NameOf(es'[p..p + n]), p + n, n), l);
      CollectsLong(es', 0, 0, i);
      assert false;
    }
  }

  lemma {:induction false} ItemIsShort(es: seq<Entry>, i: nat, run: nat, j: nat)
    requires run <= i <= |es| && j < |Items(es, i, run)|
    ensures var a := Items(es, i, run)[j].at; a < |es| && Live(es[a]) && !IsLong(es[a]) && !IsDot(es[a])
    decreases |es| - i
  {
    hide NameOf;
    if Live(es[i]) && IsLong(es[i]) {
      ItemIsShort(es, i + 1, run + 1, j);
    } else if es[i][0] == DELETED || IsDot(es[i]) {
      ItemIsShort(es, i + 1, 0, j);
    } else if j > 0 {
      ItemIsShort(es, i + 1, 0, j - 1);
    }
  }

  /** A short entry overwritten: one item comes, but one goes. */
  lemma ShortLost(es: seq<Entry>, es': seq<Entry>, p: nat, n: nat, a: nat)
    requires Tidy(es, 0, 0) && PutThere(es, es', p, n) && p <= a <= p + n
    requires Live(es[a]) && !IsLong(es[a]) && !IsDot(es[a])
    requires forall k :: 0 <= k < p ==> es[k][0] != 0
    ensures !OneMore(es, es', Item(NameOf(es'[p..p + n]), p + n, n))
  {
    hide NameOf, Tidy;
    Volumes.TidyAt(es, 0, 0, p);
    ShortCounts(es, p, 0, a, p + n + 1);
    SameFront(es, es', 0, 0, p);
    ItemsFrame(es, es', p + n + 1, 0);
    RunItems(es', p, n, p);
  }

  /** The new run is seen and does no harm exactly when everything it was put on was free, and no
      earlier entry ends the directory for its readers. */
  lemma PlacementIff(es: seq<Entry>, es': seq<Entry>, p: nat, n: nat)
    requires Tidy(es, 0, 0) && PutThere(es, es', p, n)
    ensures OneMore(es, es', Item(NameOf(es'[p..p + n]), p + n, n)) <==> FreeThere(es, p, n)
  {
    hide NameOf, Tidy, Items, IsLong, IsDot, Run, OneMoreItem;
    if FreeThere(es, p, n) {
      GoodPlace(es, es', p, n);
    } else if z :| 0 <= z < p && es[z][0] == 0 {
      Hidden(es, es', 0, 0, z);
      NoneMore(es, es', Item(NameOf(es'[p..p + n]), p + n, n));
    } else {
      var k :| p <= k <= p + n && Live(es[k]);
      if a :| p <= a <= p + n && Live(es[a]) && !IsLong(es[a]) && !IsDot(es[a]) {
        ShortLost(es, es', p, n, a);
      } else if IsLong(es[k]) {
        LongLost(es, es', p, n, k);
      } else {
        RunIsNoDot(es', p, n, k);
        assert IsDot(es[k]);
        assert IsDotEntry(es[k]) && es'[k] != es[k];
      }
    }
  }

  lemma RunIsNoDot(es: seq<Entry>, p: nat, n: nat, k: nat)
    requires Run(es, p, n) && p <= k <= p + n
    ensures !IsDotEntry(es[k])
  {
  }

  lemma NoneMore(es: seq<Entry>, es': seq<Entry>, x: Item)
    requires Items(es', 0, 0) == Items(es, 0, 0)
    ensures !OneMoreItem(Items(es, 0, 0), Items(es', 0, 0), x)
  {
    hide Items;
  }

  lemma GoodPlace(es: seq<Entry>, es': seq<Entry>, p: nat, n: nat)
    requires Tidy(es, 0, 0) && PutThere(es, es', p, n) && FreeThere(es, p, n)
    ensures OneMore(es, es', Item(NameOf(es'[p..p + n]), p + n, n))
  {
    hide NameOf, Tidy, Items, IsLong, IsDot, Run;
    Volumes.TidyAt(es, 0, 0, p);
    var j := CreatedItems(es, es', p, n, 0, 0);
    assert Inserted(Items(es, 0, 0), Items(es', 0, 0), j, Item(NameOf(es'[p..p + n]), p + n, n));
  }

  // ---- what the scan picks ----

  /** A short entry that readers get to is an item. */
  lemma {:induction false} ShortIsItem(es: seq<Entry>, i: nat, run: nat, a: nat) returns (l: nat)
    requires run <= i <= a < |es| && Live(es[a]) && !IsLong(es[a]) && !IsDot(es[a])
    requires forall k :: i <= k < a ==> es[k][0] != 0
    ensures l < |Items(es, i, run)| && Items(es, i, run)[l].at == a
    decreases a - i
  {
    ItemsStep(es, i, run);
    hide Items, NameOf, IsLong, IsDot;
    if i == a {
      l := 0;
    } else {
      l := ShortIsItem(es, i + 1, if Live(es[i]) && IsLong(es[i]) then run + 1 else 0, a);
      if Live(es[i]) && !IsLong(es[i]) && !IsDot(es[i]) {
        l := l + 1;
      }
    }
  }

  /** Readers get to an item only past entries that do not end the directory. */
  lemma {:induction false} ItemReached(es: seq<Entry>, i: nat, run: nat, j: nat)
    requires run <= i <= |es| && j < |Items(es, i, run)|
    ensures i <= Items(es, i, run)[j].at < |es|
    ensures forall k :: i <= k < Items(es, i, run)[j].at ==> es[k][0] != 0
    decreases |es| - i
  {
    NotAtEnd(es, i, run, j);
    ItemsStep(es, i, run);
    hide Items, NameOf, IsLong, IsDot;
    assert es[i][0] != 0;
    if Live(es[i]) && !IsLong(es[i]) && !IsDot(es[i]) {
      if j > 0 {
        ItemReached(es, i + 1, 0, j - 1);
        assert Items(es, i, run)[j] == Items(es, i + 1, 0)[j - 1];
      }
    } else {
      var run1 := if Live(es[i]) && IsLong(es[i]) then run + 1 else 0;
      assert Items(es, i, run) == Items(es, i + 1, run1);
      ItemReached(es, i + 1, run1, j);
    }
  }

  /** Behind a zero entry of a tidy directory there are only zero entries. */
  lemma {:induction false} AnyZero(es: seq<Entry>, i: nat, run: nat, z: nat, k: nat)
    requires run <= i <= z <= k < |es| && Tidy(es, i, run) && es[z][0] == 0
    ensures es[k][0] == 0
    decreases z - i
  {
    TidyStep(es, i, run);
    hide Tidy, IsLong, IsDot;
    if i < z && es[i][0] != 0 {
      AnyZero(es, i + 1, if Live(es[i]) && IsLong(es[i]) then run + 1 else 0, z, k);
    }
  }

  lemma {:induction false} PickedSector(es: seq<Entry>, n: nat, m: nat)
    requires PickSlot(es, n, m).Some?
    ensures var p := PickSlot(es, n, m).value; p / SLOTS * SLOTS + SLOTS <= |es| && p < |es| && !Live(es[p])
    decreases |es| - SLOTS * m
  {
    var dirent := es[SLOTS * m..SLOTS * (m + 1)];
    if RoomFrom(dirent, 0, 0, n) > n {
      RoomMeansFree(dirent, 0, 0, n);
      var p := PickSlot(es, n, m).value;
      assert p / SLOTS == m && dirent[p - SLOTS * m] == es[p];
    } else {
      PickedSector(es, n, m + 1);
    }
  }

  /** What the code stores: the run from entry `p` of the sector on, as far as the sector goes. What
      lies behind its 16 entries is not written back. */
  ghost predicate WrittenBack(es: seq<Entry>, es': seq<Entry>, p: nat, run: seq<Entry>, e: Entry) {
    && |es'| == |es| && p < |es|
    && (forall k :: 0 <= k < |run| ==> Live(run[k]) && IsLong(run[k]))
    && Live(e) && !IsLong(e) && !IsDot(e)
    && forall k :: 0 <= k < |es| ==>
         es'[k] == if p <= k <= p + |run| && k / SLOTS == p / SLOTS then (if k < p + |run| then run[k - p] else e)
             else es[k]
  }

  /** A run that overruns its sector never becomes an item: its short entry is lost. */
  lemma OverrunLost(es: seq<Entry>, es': seq<Entry>, p: nat, run: seq<Entry>, e: Entry)
    requires Tidy(es, 0, 0) && WrittenBack(es, es', p, run, e) && p % SLOTS + |run| >= SLOTS
    ensures !OneMore(es, es', Item(NameOf(run), p + |run|, |run|))
  {
    hide Items, NameOf, Tidy, Insert;
    var x, a := Item(NameOf(run), p + |run|, |run|), p + |run|;
    if OneMoreItem(Items(es, 0, 0), Items(es', 0, 0), x) {
      var j: nat :| Inserted(Items(es, 0, 0), Items(es', 0, 0), j, x);
      InsertedAt(Items(es, 0, 0), j, x);
      ItemIsShort(es', 0, 0, j);
      ItemReached(es', 0, 0, j);
      assert es'[a] == es[a];
      forall k | 0 <= k < a
        ensures es[k][0] != 0
      {
        if es[k][0] == 0 {
          AnyZero(es, 0, 0, k, a);
        }
      }
      var l := ShortIsItem(es, 0, 0, a);
      var i := InsertHas(Items(es, 0, 0), j, x, l);
      OneEntryOneItem(es', i, j);
    }
  }

  lemma InsertedAt<T>(s: seq<T>, j: nat, x: T)
    requires j <= |s|
    ensures j < |Insert(s, j, x)| && Insert(s, j, x)[j] == x
  {
  }

  lemma OneEntryOneItem(es: seq<Entry>, i: nat, j: nat)
    requires i < |Items(es, 0, 0)| && j < |Items(es, 0, 0)| && Items(es, 0, 0)[i].at == Items(es, 0, 0)[j].at
    ensures i == j
  {
    hide Items;
    if i != j {
      Volumes.ItemsDistinct(es, i, j);
    }
  }

  /** The scan's choice is right exactly when the run fits what is left of its sector, everything
      it is put on was free, and no earlier entry ends the directory for its readers. */
  lemma ScanIff(es: seq<Entry>, es': seq<Entry>, p: nat, run: seq<Entry>, e: Entry)
    requires Tidy(es, 0, 0) && PickSlot(es, |run|, 0) == Some(p) && WrittenBack(es, es', p, run, e)
    ensures OneMore(es, es', Item(NameOf(run), p + |run|, |run|)) <==>
            p % SLOTS + |run| < SLOTS && p + |run| < |es| && FreeThere(es, p, |run|)
  {
    hide Items, NameOf, Tidy, PickSlot;
    PickedSector(es, |run|, 0);
    if p % SLOTS + |run| < SLOTS {
      InOneSector(p, |run|);
      WrittenIsPut(es, es', p, run, e);
      hide OneMore, FreeThere, WrittenBack, PutThere;
      PlacementIff(es, es', p, |run|);
    } else {
      OverrunLost(es, es', p, run, e);
    }
  }

  lemma WrittenIsPut(es: seq<Entry>, es': seq<Entry>, p: nat, run: seq<Entry>, e: Entry)
    requires WrittenBack(es, es', p, run, e) && p + |run| < |es| && !Live(es[p])
    requires forall k :: p <= k <= p + |run| ==> k / SLOTS == p / SLOTS
    ensures PutThere(es, es', p, |run|) && es'[p..p + |run|] == run
  {
    hide IsLong, IsDot;
    assert forall k :: p <= k < p + |run| ==> es'[k] == run[k - p];
  }

  lemma InOneSector(p: nat, n: nat)
    requires p % SLOTS + n < SLOTS
    ensures p + n < p / SLOTS * SLOTS + SLOTS && forall k :: p <= k <= p + n ==> k / SLOTS == p / SLOTS
  {
  }

  // ---- when the scan is content ----

  /** What entry `i` adds to the count when the scan gets to it. */
  function Weight(e: Entry, i: nat): nat
    requires i < SLOTS
  {
    if e[0] == 0 then SLOTS - i else if e[0] == DELETED then 1 else 0
  }

  function Weights(dirent: seq<Entry>, i: nat): nat
    requires |dirent| == SLOTS && i <= SLOTS
    decreases SLOTS - i
  {
    if i == SLOTS then 0 else Weight(dirent[i], i) + Weights(dirent, i + 1)
  }

  /** The early stop does not matter: a sector is taken exactly when all its weights exceed `n`. */
  lemma {:induction false} RoomIff(dirent: seq<Entry>, i: nat, len: nat, n: nat)
    requires |dirent| == SLOTS && i <= SLOTS
    ensures RoomFrom(dirent, i, len, n) > n <==> len + Weights(dirent, i) > n
    decreases SLOTS - i
  {
    ScanSteps(dirent, i, len, n);
    hide RoomFrom;
    if i < SLOTS && len <= n {
      RoomIff(dirent, i + 1, len + Weight(dirent[i], i), n);
    }
  }

  function Triangle(k: nat): nat {
    if k == 0 then 0 else k + Triangle(k - 1)
  }

  function DeletedIn(dirent: seq<Entry>, i: nat, z: nat): nat
    requires i <= z <= |dirent|
    decreases z - i
  {
    if i == z then 0 else (if dirent[i][0] == DELETED then 1 else 0) + DeletedIn(dirent, i + 1, z)
  }

  lemma {:induction false} ZeroWeights(dirent: seq<Entry>, z: nat)
    requires |dirent| == SLOTS && z <= SLOTS && forall k :: z <= k < SLOTS ==> dirent[k][0] == 0
    ensures Weights(dirent, z) == Triangle(SLOTS - z)
    decreases SLOTS - z
  {
    if z < SLOTS {
      ZeroWeights(dirent, z + 1);
    }
  }

  lemma {:induction false} WeightsAre(dirent: seq<Entry>, i: nat, z: nat)
    requires |dirent| == SLOTS && i <= z <= SLOTS
    requires (forall k :: i <= k < z ==> dirent[k][0] != 0) && forall k :: z <= k < SLOTS ==> dirent[k][0] == 0
    ensures Weights(dirent, i) == DeletedIn(dirent, i, z) + Triangle(SLOTS - z)
    decreases z - i
  {
    if i < z {
      WeightsAre(dirent, i + 1, z);
    } else {
      ZeroWeights(dirent, z);
    }
  }

  /** A sector whose entries end at `z` is taken for a run of `n` + 1 entries exactly when its deleted
      entries, wherever they lie, and 1 + 2 + ... for the entries behind the end exceed `n`. */
  lemma SectorTakenIff(dirent: seq<Entry>, z: nat, n: nat)
    requires |dirent| == SLOTS && z <= SLOTS
    requires (forall k :: 0 <= k < z ==> dirent[k][0] != 0) && forall k :: z <= k < SLOTS ==> dirent[k][0] == 0
    ensures RoomFrom(dirent, 0, 0, n) > n <==> DeletedIn(dirent, 0, z) + (16 - z) * (17 - z) / 2 > n
  {
    hide RoomFrom, Weights, DeletedIn, Triangle;
    RoomIff(dirent, 0, 0, n);
    WeightsAre(dirent, 0, z);
    TriangleIs(SLOTS - z);
    assert (SLOTS - z) * (SLOTS - z + 1) == (16 - z) * (17 - z);
  }

  lemma {:induction false} TriangleIs(k: nat)
    ensures Triangle(k) == k * (k + 1) / 2
  {
    if k > 0 {
      TriangleIs(k - 1);
      assert (k - 1) * k + 2 * k == k * (k + 1);
    }
  }

  /** One deleted entry, then one in use, then the end: the scan adds the two gaps up and takes the
      first, so that a run of two entries lands on the one in use. */
  lemma ScanExample()
    ensures Tidy(GapSector(), 0, 0) && PickSlot(GapSector(), 1, 0) == Some(0) && !FreeThere(GapSector(), 0, 1)
  {
    var es := GapSector();
    assert Tidy(es, 2, 0);
    assert Tidy(es, 1, 0);
    assert es[SLOTS * 0..SLOTS * (0 + 1)] == es;
    assert DeletedIn(es, 1, 2) == 0 && DeletedIn(es, 0, 2) == 1;
    assert Triangle(14) >= 14;
    SectorTakenIff(es, 2, 1);
    assert FreeIndex(es, 0) == 0;
  }

  function GapSector(): (es: seq<Entry>)
    ensures |es| == SLOTS && es[0][0] == DELETED && es[1][0] == 65 && es[1][11] == 0
    ensures forall k :: 2 <= k < SLOTS ==> es[k][0] == 0
  {
    var free: Entry := Zeros(ENTRY_SIZE);
    [free[0 := DELETED], free[0 := 65]] + seq(SLOTS - 2, i => free)
  }

  /** Fourteen entries in use, then the end, in a directory of two sectors: for two long-name entries
      and a short one the scan counts 2 + 1 and takes the last two entries of the first sector. All
      of it is free, and still the short entry lands behind the sector and is lost. */
  lemma OverrunExample(es': seq<Entry>, run: seq<Entry>, e: Entry)
    requires |run| == 2 && WrittenBack(FullSector(), es', 14, run, e)
    ensures Tidy(FullSector(), 0, 0) && PickSlot(FullSector(), 2, 0) == Some(14) && FreeThere(FullSector(), 14, 2)
    ensures !OneMore(FullSector(), es', Item(NameOf(run), 16, 2))
  {
    hide FullSector, Tidy, Items, NameOf, OneMore, WrittenBack, RoomFrom, FreeIndex, DeletedIn, PickSlot;
    var es := FullSector();
    FullSectorIs();
    UsedTidy(es, 0, 14);
    FullPicked(es);
    OverrunLost(es, es', 14, run, e);
  }

  lemma FullSectorIs()
    ensures |FullSector()| == 2 * SLOTS
    ensures forall k :: 0 <= k < 14 ==> FullSector()[k][0] == 65 && FullSector()[k][11] == 0
    ensures forall k :: 14 <= k < 2 * SLOTS ==> FullSector()[k][0] == 0
  {
  }

  lemma FullPicked(es: seq<Entry>)
    requires |es| == 2 * SLOTS && (forall k :: 0 <= k < 14 ==> es[k][0] == 65)
    requires forall k :: 14 <= k < 2 * SLOTS ==> es[k][0] == 0
    ensures PickSlot(es, 2, 0) == Some(14)
  {
    hide RoomFrom, FreeIndex, DeletedIn;
    var dirent := es[SLOTS * 0..SLOTS * (0 + 1)];
    assert forall k :: 0 <= k < SLOTS ==> dirent[k] == es[k];
    NoneDeleted(dirent, 0, 14);
    assert Triangle(1) == 1 && Triangle(2) == 3;
    SectorTakenIff(dirent, 14, 2);
    FirstFreeIs(dirent, 0, 14);
  }

  lemma {:induction false} FirstFreeIs(dirent: seq<Entry>, i: nat, k: nat)
    requires |dirent| == SLOTS && i <= k < SLOTS && !Live(dirent[k]) && forall l :: i <= l < k ==> Live(dirent[l])
    ensures FreeIndex(dirent, i) == k
    decreases k - i
  {
    if i < k {
      FirstFreeIs(dirent, i + 1, k);
    }
  }

  lemma {:induction false} UsedTidy(es: seq<Entry>, i: nat, z: nat)
    requires i <= z < |es| && (forall k :: i <= k < z ==> Live(es[k]) && !IsLong(es[k]) && !IsDot(es[k]))
    requires forall k :: z <= k < |es| ==> es[k][0] == 0
    ensures Tidy(es, i, 0)
    decreases z - i
  {
    TidyStep(es, i, 0);
    hide Tidy, IsLong, IsDot;
    if i < z {
      UsedTidy(es, i + 1, z);
    }
  }

  lemma {:induction false} NoneDeleted(dirent: seq<Entry>, i: nat, z: nat)
    requires i <= z <= |dirent| && forall k :: i <= k < z ==> dirent[k][0] != DELETED
    ensures DeletedIn(dirent, i, z) == 0
    decreases z - i
  {
    if i < z {
      NoneDeleted(dirent, i + 1, z);
    }
  }

  function FullSector(): (es: seq<Entry>)
    ensures |es| == 2 * SLOTS && forall k :: 0 <= k < 14 ==> es[k][0] == 65 && es[k][11] == 0
    ensures forall k :: 14 <= k < 2 * SLOTS ==> es[k][0] == 0
  {
    var free: Entry := Zeros(ENTRY_SIZE);
    var used: Entry := free[0 := 65];
    seq(14, i => used) + seq(2 * SLOTS - 14, i => free)
  }
}
