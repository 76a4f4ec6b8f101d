/** What the sectors that the compiled directory loops read too many do, in terms of the directory's
    own sectors: in which order the loops come across them, and which of them hold items, end marks
    or room (fat.c:374-425, 1096-1132). */
module Overruns {
  import opened Bytes
  import opened Chains
  import opened FileData
  import opened WriteLoops
  import opened LongNames
  import opened Directories
  import opened Trees
  import opened SlotScan
  import opened Walks

  // ---- the items of a row of sectors ----

  predicate Ends(x: Sector) {
    exists i :: 0 <= i < SLOTS && Slots(x)[i][0] == 0
  }

  ghost predicate On(d: seq<Sector>, ps: seq<nat>) {
    forall k :: 0 <= k < |ps| ==> ps[k] < |d|
  }

  /** What is seen of the sector at `p`. */
  function Block(d: seq<Sector>, p: nat): (r: seq<Sight>)
    requires p < |d|
    ensures |r| == |Items(Slots(d[p]), 0, 0)|
  {
    var xs := Items(Slots(d[p]), 0, 0);
    seq(|xs|, k requires 0 <= k < |xs| => Sight(xs[k].name, p, xs[k].at))
  }

  /** What is seen of the sectors at `ps`, one by one until an end mark. */
  ghost function Told(d: seq<Sector>, ps: seq<nat>): seq<Sight>
    requires On(d, ps)
  {
    if ps == [] then [] else Block(d, ps[0]) + if Ends(d[ps[0]]) then [] else Told(d, ps[1..])
  }

  /** Those of them that show an item, until an end mark. */
  ghost function Voices(d: seq<Sector>, ps: seq<nat>): seq<nat>
    requires On(d, ps)
  {
    if ps == [] then []
    else (if Block(d, ps[0]) == [] then [] else [ps[0]]) + if Ends(d[ps[0]]) then [] else Voices(d, ps[1..])
  }

  ghost predicate Vocal(d: seq<Sector>, v: seq<nat>) {
    forall k :: 0 <= k < |v| ==> v[k] < |d| && Block(d, v[k]) != []
  }

  ghost function Flat(d: seq<Sector>, v: seq<nat>): seq<Sight>
    requires Vocal(d, v)
  {
    if v == [] then [] else Block(d, v[0]) + Flat(d, v[1..])
  }

  lemma {:induction false} ToldIsFlat(d: seq<Sector>, ps: seq<nat>)
    requires On(d, ps)
    ensures Vocal(d, Voices(d, ps)) && Told(d, ps) == Flat(d, Voices(d, ps))
    decreases |ps|
  {
    hide Block, Ends;
    if ps != [] {
      var rest := if Ends(d[ps[0]]) then [] else Voices(d, ps[1..]);
      if !Ends(d[ps[0]]) {
        ToldIsFlat(d, ps[1..]);
      }
      if Block(d, ps[0]) != [] {
        assert Voices(d, ps) == [ps[0]] + rest && ([ps[0]] + rest)[1..] == rest;
      } else {
        assert Voices(d, ps) == rest;
      }
    }
  }

  /** What is seen tells which sectors it was seen in. */
  lemma {:induction false} FlatSame(d: seq<Sector>, v: seq<nat>, w: seq<nat>)
    requires Vocal(d, v) && Vocal(d, w) && Flat(d, v) == Flat(d, w)
    ensures v == w
    decreases |v|
  {
    if v != [] && w != [] {
      assert Flat(d, v)[0] == Block(d, v[0])[0] && Flat(d, w)[0] == Block(d, w[0])[0];
      assert v[0] == w[0];
      assert Flat(d, v)[|Block(d, v[0])|..] == Flat(d, v[1..]) && Flat(d, w)[|Block(d, w[0])|..] == Flat(d, w[1..]);
      FlatSame(d, v[1..], w[1..]);
      assert v == [v[0]] + v[1..] && w == [w[0]] + w[1..];
    }
  }

  // ---- a walk is such a row ----

  /** The entries of the sectors at `ps`. */
  function Line(d: seq<Sector>, ps: seq<nat>): (es: seq<Entry>)
    requires forall k :: 0 <= k < |ps| ==> ps[k] < |d|
    ensures |es| == SLOTS * |ps|
  {
    AllSlots(seq(|ps|, k requires 0 <= k < |ps| => d[ps[k]]))
  }

  ghost function Shown(d: seq<Sector>, ps: seq<nat>): (r: seq<Sight>)
    requires On(d, ps)
    ensures |r| == |Items(Line(d, ps), 0, 0)|
  {
    var xs := Items(Line(d, ps), 0, 0);
    seq(|xs|, k requires 0 <= k < |xs| =>
          ItemWithin(Line(d, ps), 0, 0, k);
          Sight(xs[k].name, ps[xs[k].at / SLOTS], xs[k].at % SLOTS))
  }

  /** Up to the one that ends the row, the long-name entries of each sector belong to its items. */
  ghost predicate Neat(d: seq<Sector>, ps: seq<nat>)
    requires On(d, ps)
  {
    ps != [] ==> Tidy(Slots(d[ps[0]]), 0, 0) && (!Ends(d[ps[0]]) ==> Neat(d, ps[1..]))
  }

  /** Items further back. */
  function Moved(xs: seq<Item>, n: nat): (r: seq<Item>) {
    seq(|xs|, k requires 0 <= k < |xs| => Item(xs[k].name, xs[k].at + n, xs[k].run))
  }

  lemma {:induction false} ItemsMoved(a: seq<Entry>, b: seq<Entry>, i: nat, run: nat)
    requires run <= i <= |b|
    ensures Items(a + b, |a| + i, run) == Moved(Items(b, i, run), |a|)
    decreases |b| - i
  {
    hide NameOf, Items, Moved, IsLong, IsDot;
    if i == |b| {
      NoItems(b, i, run);
      NoItems(a + b, |a| + i, run);
      MovedNone(|a|);
    } else {
      assert (a + b)[|a| + i] == b[i];
      assert (a + b)[|a| + i - run..|a| + i] == b[i - run..i];
      ItemsStep(b, i, run);
      ItemsStep(a + b, |a| + i, run);
      if b[i][0] == 0 {
        MovedNone(|a|);
      } else {
        var next := if Live(b[i]) && IsLong(b[i]) then run + 1 else 0;
        ItemsMoved(a, b, i + 1, next);
        MovedOn(Item(NameOf(b[i - run..i]), i, run), Items(b, i + 1, next), |a|);
      }
    }
  }

  lemma NoItems(es: seq<Entry>, i: nat, run: nat)
    requires run <= i == |es|
    ensures Items(es, i, run) == []
  {
  }

  lemma MovedNone(n: nat)
    ensures Moved([], n) == []
  {
  }

  lemma MovedOn(x: Item, xs: seq<Item>, n: nat)
    ensures Moved([x] + xs, n) == [Item(x.name, x.at + n, x.run)] + Moved(xs, n)
  {
  }

  lemma {:induction false} ItemsOver(a: seq<Entry>, b: seq<Entry>, i: nat, run: nat)
    requires |a| == SLOTS && run <= i <= SLOTS && Tidy(a, i, run) && forall k :: i <= k < SLOTS ==> a[k][0] != 0
    ensures Items(a + b, i, run) == Items(a, i, run) + Items(a + b, SLOTS, 0)
    decreases SLOTS - i
  {
    hide NameOf;
    if i < SLOTS {
      assert (a + b)[i] == a[i];
      assert (a + b)[i - run..i] == a[i - run..i];
      ItemsOver(a, b, i + 1, if Live(a[i]) && IsLong(a[i]) then run + 1 else 0);
    }
  }

  lemma LineFirst(d: seq<Sector>, ps: seq<nat>)
    requires On(d, ps) && ps != []
    ensures Line(d, ps) == Slots(d[ps[0]]) + Line(d, ps[1..])
  {
    var a, b := Slots(d[ps[0]]), Line(d, ps[1..]);
    forall k | 0 <= k < SLOTS * |ps|
      ensures Line(d, ps)[k] == (a + b)[k]
    {
      if k >= SLOTS {
        assert (k - SLOTS) / SLOTS == k / SLOTS - 1 && (k - SLOTS) % SLOTS == k % SLOTS;
      }
    }
  }

  /** The items of a row whose first sector does not end it. */
  lemma OneSectorOn(d: seq<Sector>, ps: seq<nat>)
    requires On(d, ps) && ps != [] && Tidy(Slots(d[ps[0]]), 0, 0)
    ensures Ends(d[ps[0]]) ==> Items(Line(d, ps), 0, 0) == Items(Slots(d[ps[0]]), 0, 0)
    ensures !Ends(d[ps[0]]) ==>
      Items(Line(d, ps), 0, 0) == Items(Slots(d[ps[0]]), 0, 0) + Moved(Items(Line(d, ps[1..]), 0, 0), SLOTS)
  {
    hide Items, Slots, Line;
    LineFirst(d, ps);
    var a, b := Slots(d[ps[0]]), Line(d, ps[1..]);
    if Ends(d[ps[0]]) {
      var z :| 0 <= z < SLOTS && a[z][0] == 0;
      SameUpTo(a, a + b, 0, 0, z);
    } else {
      ItemsOver(a, b, 0, 0);
      ItemsMoved(a, b, 0, 0);
    }
  }

  lemma ShownAt(d: seq<Sector>, ps: seq<nat>, k: nat)
    requires On(d, ps) && k < |Items(Line(d, ps), 0, 0)|
    ensures var x := Items(Line(d, ps), 0, 0)[k];
      x.at / SLOTS < |ps| && Shown(d, ps)[k] == Sight(x.name, ps[x.at / SLOTS], x.at % SLOTS)
  {
    ItemWithin(Line(d, ps), 0, 0, k);
    hide Line, Items;
  }

  lemma BlockAt(d: seq<Sector>, p: nat, k: nat)
    requires p < |d| && k < |Items(Slots(d[p]), 0, 0)|
    ensures var x := Items(Slots(d[p]), 0, 0)[k];
      x.at < SLOTS && Block(d, p)[k] == Sight(x.name, p, x.at)
  {
    ItemWithin(Slots(d[p]), 0, 0, k);
    hide Slots, Items;
  }

  lemma {:induction false} ShownIsTold(d: seq<Sector>, ps: seq<nat>)
    requires On(d, ps) && Neat(d, ps)
    ensures Shown(d, ps) == Told(d, ps)
    decreases |ps|
  {
    hide Items, Slots, Line, Shown, Block, Ends;
    ShownSize(d, ps);
    if ps != [] {
      OneSectorOn(d, ps);
      BlockSize(d, ps[0]);
      var xs := Items(Slots(d[ps[0]]), 0, 0);
      if !Ends(d[ps[0]]) {
        ShownIsTold(d, ps[1..]);
        ShownSize(d, ps[1..]);
      }
      forall k | 0 <= k < |Shown(d, ps)|
        ensures Shown(d, ps)[k] == Told(d, ps)[k]
      {
        ShownAt(d, ps, k);
        if k < |xs| {
          BlockAt(d, ps[0], k);
        } else {
          ShownAt(d, ps[1..], k - |xs|);
        }
      }
    }
  }

  lemma ShownSize(d: seq<Sector>, ps: seq<nat>)
    requires On(d, ps)
    ensures |Shown(d, ps)| == |Items(Line(d, ps), 0, 0)| && (ps == [] ==> Shown(d, ps) == [])
  {
  }

  lemma BlockSize(d: seq<Sector>, p: nat)
    requires p < |d|
    ensures |Block(d, p)| == |Items(Slots(d[p]), 0, 0)|
  {
  }

  /** The sectors that a walk with the given lap reads. */
  ghost function Places(spc: nat, lap: nat, s: seq<nat>): (ps: seq<nat>)
    requires lap > 0 && forall i :: 0 <= i < |s| ==> s[i] >= 2
    ensures |ps| == Times(lap, |s|)
  {
    seq(Times(lap, |s|), m requires 0 <= m < Times(lap, |s|) => LapWithin(lap, m, |s|); PlaceAt(spc, lap, s, m))
  }

  lemma PlacesAt(d: seq<Sector>, spc: nat, lap: nat, s: seq<nat>)
    requires LapsFit(|d|, spc, lap, s)
    ensures On(d, Places(spc, lap, s)) && |Places(spc, lap, s)| == Times(lap, |s|)
    ensures forall m :: 0 <= m < Times(lap, |s|) ==>
      LapOf(lap, m) < |s| && s[LapOf(lap, m)] >= 2 && Places(spc, lap, s)[m] == PlaceAt(spc, lap, s, m)
  {
    hide LapOf, InLap, Times, Base;
    forall m | 0 <= m < Times(lap, |s|)
      ensures LapOf(lap, m) < |s| && s[LapOf(lap, m)] >= 2 && Places(spc, lap, s)[m] == PlaceAt(spc, lap, s, m) < |d|
    {
      PlaceFits(|d|, spc, lap, s, m);
    }
  }

  lemma WalkedIsLine(d: seq<Sector>, spc: nat, lap: nat, s: seq<nat>)
    requires LapsFit(|d|, spc, lap, s) && On(d, Places(spc, lap, s))
    ensures Walked(d, spc, lap, s) == Line(d, Places(spc, lap, s))
  {
    PlacesAt(d, spc, lap, s);
    hide LapOf, InLap, Times, Base, Places, PlaceAt, LapsFit;
    var ps := Places(spc, lap, s);
    var a := seq(Times(lap, |s|), m requires 0 <= m < Times(lap, |s|) => SectorRead(d, spc, lap, s, m));
    var b := seq(|ps|, k requires 0 <= k < |ps| => d[ps[k]]);
    assert a == b;
  }

  lemma SightsAreShown(d: seq<Sector>, spc: nat, lap: nat, s: seq<nat>)
    requires LapsFit(|d|, spc, lap, s) && On(d, Places(spc, lap, s))
    ensures Sights(d, spc, lap, s) == Shown(d, Places(spc, lap, s))
  {
    WalkedIsLine(d, spc, lap, s);
    PlacesAt(d, spc, lap, s);
    hide LapOf, InLap, Times, Base, Walked, Items, PlaceAt, Line, Places, LapsFit;
    var xs := Items(Walked(d, spc, lap, s), 0, 0);
    forall k | 0 <= k < |xs|
      ensures Sights(d, spc, lap, s)[k] == Shown(d, Places(spc, lap, s))[k]
    {
      SightAt(d, spc, lap, s, k);
      ShownAt(d, Places(spc, lap, s), k);
    }
  }

  // ---- the directory's own sectors, by number ----

  predicate Own(es: seq<Entry>, m: nat) {
    SLOTS * m + SLOTS <= |es|
  }

  function SectorOf(es: seq<Entry>, m: nat): (r: seq<Entry>)
    requires Own(es, m)
    ensures |r| == SLOTS
  {
    es[SLOTS * m..SLOTS * m + SLOTS]
  }

  predicate ShowsItem(es: seq<Entry>, m: nat)
    requires Own(es, m)
  {
    Items(SectorOf(es, m), 0, 0) != []
  }

  predicate EndsIn(es: seq<Entry>, m: nat)
    requires Own(es, m)
  {
    exists i :: 0 <= i < SLOTS && SectorOf(es, m)[i][0] == 0
  }

  /** The sectors that show an item, when they are read in this order until an end mark. A number
      that is not that of a sector of the directory counts as one of them. */
  function Heard(es: seq<Entry>, order: seq<nat>): seq<nat> {
    if order == [] then []
    else if !Own(es, order[0]) then [order[0]] + Heard(es, order[1..])
    else (if ShowsItem(es, order[0]) then [order[0]] else []) + if EndsIn(es, order[0]) then []
      else Heard(es, order[1..])
  }

  function IndexIn(s: seq<nat>, c: nat): (j: nat)
    ensures j <= |s| && (j < |s| ==> s[j] == c) && (j == |s| ==> c !in s)
  {
    if s == [] then 0 else if s[0] == c then 0 else 1 + IndexIn(s[1..], c)
  }

  /** The number of the sector that the compiled loop reads in step `m`: behind the sectors of a
      cluster, the first one of the cluster that lies behind it on the disk. If that is not one of
      the directory's, there is no such number. */
  function NumberRead(spc: nat, s: seq<nat>, m: nat): nat
    requires spc > 0 && m < Times(spc + 1, |s|)
  {
    LapWithin(spc + 1, m, |s|);
    var q, o := LapOf(spc + 1, m), InLap(spc + 1, m);
    if o < spc then Times(spc, q) + o else Times(spc, IndexIn(s, s[q] + 1))
  }

  function CompiledOrder(spc: nat, s: seq<nat>): (r: seq<nat>)
    requires spc > 0
    ensures |r| == Times(spc + 1, |s|)
  {
    seq(Times(spc + 1, |s|), m requires 0 <= m < Times(spc + 1, |s|) => NumberRead(spc, s, m))
  }

  function RightOrder(spc: nat, s: seq<nat>): (r: seq<nat>)
    ensures |r| == Times(spc, |s|)
  {
    seq(Times(spc, |s|), m => m)
  }

  /** The number and the place belong together. */
  lemma NumberPlace(spc: nat, s: seq<nat>, m: nat)
    requires spc > 0 && (forall i :: 0 <= i < |s| ==> s[i] >= 2) && m < Times(spc + 1, |s|)
    ensures LapOf(spc + 1, m) < |s|
    ensures var n := NumberRead(spc, s, m);
      && (n < Times(spc, |s|) ==> LapOf(spc, n) < |s| && PlaceAt(spc, spc + 1, s, m) == PlaceAt(spc, spc, s, n))
      && (n >= Times(spc, |s|) <==> InLap(spc + 1, m) == spc && s[LapOf(spc + 1, m)] + 1 !in s)
  {
    LapWithin(spc + 1, m, |s|);
    LapParts(spc + 1, m);
    hide LapOf, InLap, Times, Base;
    var q, o := LapOf(spc + 1, m), InLap(spc + 1, m);
    if o < spc {
      NumberParts(spc, s, q, o);
    } else {
      var j := IndexIn(s, s[q] + 1);
      if j < |s| {
        NumberParts(spc, s, j, 0);
        BaseNext(spc, s[q]);
      }
    }
  }

  lemma NumberParts(spc: nat, s: seq<nat>, q: nat, o: nat)
    requires q < |s| && o < spc
    ensures Times(spc, q) + o < Times(spc, |s|) && LapOf(spc, Times(spc, q) + o) == q
    ensures InLap(spc, Times(spc, q) + o) == o
  {
    TimesGrows(spc, q, |s|);
    LapUnique(spc, q, o, Times(spc, q) + o);
  }

  /** Sector by sector, a tidy directory is tidy. */
  lemma {:induction false} TidyAcross(es: seq<Entry>, m: nat, i: nat, run: nat)
    requires Own(es, m) && run <= i <= SLOTS && Tidy(es, SLOTS * m + i, run)
    ensures Tidy(SectorOf(es, m), i, run) && Tidy(es, SLOTS * m + SLOTS, 0)
    decreases SLOTS - i
  {
    var x := SectorOf(es, m);
    if i < SLOTS {
      assert x[i] == es[SLOTS * m + i] && (SLOTS * m + i) % SLOTS == i;
      if x[i][0] == 0 {
        assert forall k :: i <= k < SLOTS ==> x[k] == es[SLOTS * m + k];
      } else {
        TidyAcross(es, m, i + 1, if Live(x[i]) && IsLong(x[i]) then run + 1 else 0);
      }
    } else {
      assert (SLOTS * m + i) % SLOTS == 0;
    }
  }

  lemma {:induction false} TidySector(es: seq<Entry>, m: nat)
    requires Own(es, m) && Tidy(es, 0, 0)
    ensures Tidy(es, SLOTS * m, 0) && Tidy(SectorOf(es, m), 0, 0)
    decreases m
  {
    hide Tidy, SectorOf;
    if m > 0 {
      TidySector(es, m - 1);
      TidyAcross(es, m - 1, 0, 0);
    }
    TidyAcross(es, m, 0, 0);
  }

  lemma OwnSector(d: seq<Sector>, spc: nat, s: seq<nat>, es: seq<Entry>, m: nat)
    requires Directory(d, spc, s) && InArea(|d|, spc, s) && es == DirSlots(d, spc, s) && Tidy(es, 0, 0)
    requires m < Times(spc, |s|)
    ensures LapOf(spc, m) < |s| && s[LapOf(spc, m)] >= 2 && PlaceAt(spc, spc, s, m) < |d| && Own(es, m)
    ensures var p := PlaceAt(spc, spc, s, m);
      && SectorOf(es, m) == Slots(d[p]) && Tidy(Slots(d[p]), 0, 0)
      && (ShowsItem(es, m) <==> Block(d, p) != []) && (EndsIn(es, m) <==> Ends(d[p]))
  {
    DirectoryParts(d, spc, s);
    PlaceFits(|d|, spc, spc, s, m);
    SlotsRead(d, spc, s, m);
    TidySector(es, m);
    hide LapOf, InLap, Times, Base, Slots, Items, DirSlots, PlaceAt, Directory;
  }

  // ---- looking for items ----

  /** No sector before step `k` ends the row. */
  ghost predicate Quiet(d: seq<Sector>, ps: seq<nat>, k: nat)
    requires On(d, ps)
  {
    forall j :: 0 <= j < k && j < |ps| ==> !Ends(d[ps[j]])
  }

  /** Numbers of the directory's own sectors. */
  ghost predicate OwnNumbers(spc: nat, s: seq<nat>, ns: seq<nat>) {
    spc > 0 && forall k :: 0 <= k < |ns| ==>
      ns[k] < Times(spc, |s|) && LapOf(spc, ns[k]) < |s| && s[LapOf(spc, ns[k])] >= 2
  }

  /** Where they lie. */
  ghost function Placed(spc: nat, s: seq<nat>, ns: seq<nat>): seq<nat>
    requires OwnNumbers(spc, s, ns)
  {
    seq(|ns|, k requires 0 <= k < |ns| => PlaceAt(spc, spc, s, ns[k]))
  }

  /** Up to its end, the row at `ps` consists of the directory's sectors in this order. */
  ghost predicate Ordered(d: seq<Sector>, spc: nat, s: seq<nat>, ps: seq<nat>, order: seq<nat>)
    requires spc > 0 && On(d, ps)
  {
    |ps| == |order| && forall k :: 0 <= k < |ps| && Quiet(d, ps, k) ==> OrderedAt(spc, s, ps[k], order[k])
  }

  ghost predicate OrderedAt(spc: nat, s: seq<nat>, p: nat, m: nat)
    requires spc > 0
  {
    m < Times(spc, |s|) && LapOf(spc, m) < |s| && s[LapOf(spc, m)] >= 2 && p == PlaceAt(spc, spc, s, m)
  }

  lemma PlacedOn(spc: nat, s: seq<nat>, m: nat, p: nat, ns: seq<nat>)
    requires spc > 0 && OrderedAt(spc, s, p, m) && OwnNumbers(spc, s, ns)
    ensures OwnNumbers(spc, s, [m]) && Placed(spc, s, [m]) == [p]
    ensures OwnNumbers(spc, s, [m] + ns) && Placed(spc, s, [m] + ns) == [p] + Placed(spc, s, ns)
  {
    hide LapOf, InLap, Times, Base, PlaceAt;
  }

  lemma PlacedNone(spc: nat, s: seq<nat>)
    requires spc > 0
    ensures OwnNumbers(spc, s, []) && Placed(spc, s, []) == []
  {
  }

  /** From step `k` on: what the row shows is what the numbers say. */
  lemma {:induction false} Agree(d: seq<Sector>, spc: nat, s: seq<nat>, es: seq<Entry>, ps: seq<nat>, order: seq<nat>,
                                 k: nat)
    requires Directory(d, spc, s) && InArea(|d|, spc, s) && es == DirSlots(d, spc, s) && Tidy(es, 0, 0)
    requires spc > 0 && On(d, ps) && Ordered(d, spc, s, ps, order) && k <= |ps| && Quiet(d, ps, k)
    ensures Neat(d, ps[k..]) && OwnNumbers(spc, s, Heard(es, order[k..]))
    ensures Voices(d, ps[k..]) == Placed(spc, s, Heard(es, order[k..]))
    decreases |ps| - k
  {
    hide LapOf, InLap, Times, Base, PlaceAt, Directory, Tidy, Block, Ends, DirSlots, OwnNumbers, Placed, OrderedAt, Own;
    hide ShowsItem, EndsIn;
    PlacedNone(spc, s);
    if k < |ps| {
      assert OrderedAt(spc, s, ps[k], order[k]);
      OrderedParts(spc, s, ps[k], order[k]);
      OwnSector(d, spc, s, es, order[k]);
      assert ps[k..][0] == ps[k] && ps[k..][1..] == ps[k + 1..] && order[k..][0] == order[k]
          && order[k..][1..] == order[k + 1..];
      var heard: seq<nat> := [];
      if Ends(d[ps[k]]) {
        assert Voices(d, ps[k..]) == (if Block(d, ps[k]) == [] then [] else [ps[k]]) + [];
      } else {
        Agree(d, spc, s, es, ps, order, k + 1);
        heard := Heard(es, order[k + 1..]);
        assert Voices(d, ps[k..]) == (if Block(d, ps[k]) == [] then [] else [ps[k]]) + Voices(d, ps[k + 1..]);
      }
      PlacedOn(spc, s, order[k], ps[k], heard);
      assert Heard(es, order[k..]) == (if ShowsItem(es, order[k]) then [order[k]] else []) + heard;
      assert [] + heard == heard && [] + Placed(spc, s, heard) == Placed(spc, s, heard);
    }
  }

  lemma OrderedParts(spc: nat, s: seq<nat>, p: nat, m: nat)
    requires spc > 0 && OrderedAt(spc, s, p, m)
    ensures m < Times(spc, |s|) && LapOf(spc, m) < |s| && s[LapOf(spc, m)] >= 2 && p == PlaceAt(spc, spc, s, m)
  {
  }

  /** Different numbers, different places. */
  lemma PlacedSame(spc: nat, s: seq<nat>, a: seq<nat>, b: seq<nat>)
    requires spc > 0 && Distinct(s) && (forall i :: 0 <= i < |s| ==> s[i] >= 2)
    requires OwnNumbers(spc, s, a) && OwnNumbers(spc, s, b) && Placed(spc, s, a) == Placed(spc, s, b)
    ensures a == b
  {
    hide LapOf, InLap, Times, Base, PlaceAt;
    assert |Placed(spc, s, a)| == |a| && |Placed(spc, s, b)| == |b|;
    forall k | 0 <= k < |a|
      ensures a[k] == b[k]
    {
      assert Placed(spc, s, a)[k] == Placed(spc, s, b)[k];
      if a[k] != b[k] {
        PlacesDiffer(spc, s, a[k], b[k]);
      }
    }
  }

  /** The right walk is in order. */
  lemma RightOrdered(d: seq<Sector>, spc: nat, s: seq<nat>)
    requires Directory(d, spc, s)
    ensures LapsFit(|d|, spc, spc, s) && On(d, Places(spc, spc, s))
    ensures Ordered(d, spc, s, Places(spc, spc, s), RightOrder(spc, s))
  {
    DirectoryParts(d, spc, s);
    PlacesAt(d, spc, spc, s);
    hide LapOf, InLap, Times, Base, PlaceAt, Places, LapsFit, Directory;
  }

  lemma QuietReached(d: seq<Sector>, spc: nat, s: seq<nat>, m: nat)
    requires LapsFit(|d|, spc, spc + 1, s) && On(d, Places(spc, spc + 1, s)) && m < Times(spc + 1, |s|)
    ensures Quiet(d, Places(spc, spc + 1, s), m) <==> Reached(d, spc, s, m)
  {
    PlacesAt(d, spc, spc + 1, s);
    WalkedSize(d, spc, spc + 1, s);
    hide LapOf, InLap, Times, Base, PlaceAt, Places, LapsFit, Walked;
    var ps, es := Places(spc, spc + 1, s), Walked(d, spc, spc + 1, s);
    if Quiet(d, ps, m) {
      forall j | 0 <= j < SLOTS * m && j < |es|
        ensures es[j][0] != 0
      {
        WalkedAt(d, spc, spc + 1, s, j / SLOTS, j % SLOTS);
        assert !Ends(d[ps[j / SLOTS]]) && SLOTS * (j / SLOTS) + j % SLOTS == j;
        assert Slots(d[ps[j / SLOTS]])[j % SLOTS][0] != 0;
      }
    }
    if Reached(d, spc, s, m) {
      forall j | 0 <= j < m && j < |ps|
        ensures !Ends(d[ps[j]])
      {
        forall i | 0 <= i < SLOTS
          ensures Slots(d[ps[j]])[i][0] != 0
        {
          WalkedAt(d, spc, spc + 1, s, j, i);
        }
      }
    }
  }

  /** The compiled walk is in its order, if it stays inside. */
  lemma CompiledOrdered(d: seq<Sector>, spc: nat, s: seq<nat>)
    requires Directory(d, spc, s) && LapsFit(|d|, spc, spc + 1, s) && StaysInside(d, spc, s)
    ensures On(d, Places(spc, spc + 1, s)) && Ordered(d, spc, s, Places(spc, spc + 1, s), CompiledOrder(spc, s))
  {
    DirectoryParts(d, spc, s);
    PlacesAt(d, spc, spc + 1, s);
    hide LapOf, InLap, Times, Base, PlaceAt, Places, LapsFit, Directory, Reached, NumberRead, Quiet;
    var ps := Places(spc, spc + 1, s);
    forall k | 0 <= k < |ps| && Quiet(d, ps, k)
      ensures OrderedAt(spc, s, ps[k], CompiledOrder(spc, s)[k])
    {
      QuietReached(d, spc, s, k);
      NumberPlace(spc, s, k);
    }
  }

  /** A tidy directory in which the loop stays inside is seen right exactly when the sectors that show
      an item come in the same order. */
  lemma InsideIff(d: seq<Sector>, spc: nat, s: seq<nat>, es: seq<Entry>)
    requires Directory(d, spc, s) && LapsFit(|d|, spc, spc + 1, s) && InArea(|d|, spc, s)
    requires es == DirSlots(d, spc, s) && Tidy(es, 0, 0) && StaysInside(d, spc, s)
    ensures SeesRight(d, spc, s) <==> Heard(es, CompiledOrder(spc, s)) == Heard(es, RightOrder(spc, s))
  {
    hide *;
    DirectoryParts(d, spc, s);
    RightOrdered(d, spc, s);
    CompiledOrdered(d, spc, s);
    SightsHeard(d, spc, spc + 1, s, es, CompiledOrder(spc, s));
    SightsHeard(d, spc, spc, s, es, RightOrder(spc, s));
    SeesRightMeans(d, spc, s);
    var a, b := Heard(es, CompiledOrder(spc, s)), Heard(es, RightOrder(spc, s));
    if SeesRight(d, spc, s) {
      FlatSame(d, Placed(spc, s, a), Placed(spc, s, b));
      IsDistinct(d, spc, s);
      PlacedSame(spc, s, a, b);
    }
  }

  lemma IsDistinct(d: seq<Sector>, spc: nat, s: seq<nat>)
    requires Directory(d, spc, s)
    ensures Distinct(s)
  {
  }

  lemma SeesRightMeans(d: seq<Sector>, spc: nat, s: seq<nat>)
    requires spc > 0 && LapsFit(|d|, spc, spc + 1, s)
    ensures LapsFit(|d|, spc, spc, s)
    ensures (SeesRight(d, spc, s) <==> Sights(d, spc, spc + 1, s) == Sights(d, spc, spc, s))
  {
    BothLaps(|d|, spc, s);
  }

  /** What a walk sees is what the sectors show that are heard. */
  lemma SightsHeard(d: seq<Sector>, spc: nat, lap: nat, s: seq<nat>, es: seq<Entry>, order: seq<nat>)
    requires Directory(d, spc, s) && InArea(|d|, spc, s) && es == DirSlots(d, spc, s) && Tidy(es, 0, 0)
    requires spc > 0 && LapsFit(|d|, spc, lap, s) && lap > 0 && forall i :: 0 <= i < |s| ==> s[i] >= 2
    requires On(d, Places(spc, lap, s)) && Ordered(d, spc, s, Places(spc, lap, s), order)
    ensures OwnNumbers(spc, s, Heard(es, order)) && Vocal(d, Placed(spc, s, Heard(es, order)))
    ensures Sights(d, spc, lap, s) == Flat(d, Placed(spc, s, Heard(es, order)))
  {
    hide *;
    var ps := Places(spc, lap, s);
    QuietFirst(d, ps);
    OrderSize(d, spc, s, ps, order);
    Agree(d, spc, s, es, ps, order, 0);
    assert ps[0..] == ps && order[0..] == order;
    SightsAreShown(d, spc, lap, s);
    ShownIsTold(d, ps);
    ToldIsFlat(d, ps);
  }

  lemma QuietFirst(d: seq<Sector>, ps: seq<nat>)
    requires On(d, ps)
    ensures Quiet(d, ps, 0)
  {
  }

  lemma OrderSize(d: seq<Sector>, spc: nat, s: seq<nat>, ps: seq<nat>, order: seq<nat>)
    requires spc > 0 && On(d, ps) && Ordered(d, spc, s, ps, order)
    ensures |ps| == |order|
  {
  }

  lemma {:induction false} HeardIn(es: seq<Entry>, order: seq<nat>)
    ensures forall x :: x in Heard(es, order) ==> x in order
    decreases |order|
  {
    hide ShowsItem, EndsIn, Own;
    if order != [] {
      HeardIn(es, order[1..]);
    }
  }

  /** A number without a sector is heard, if nothing before it ends the directory. */
  lemma {:induction false} ForeignHeard(es: seq<Entry>, order: seq<nat>, m: nat)
    requires m < |order| && !Own(es, order[m])
    requires forall j :: 0 <= j < m && Own(es, order[j]) ==> !EndsIn(es, order[j])
    ensures exists x :: x in Heard(es, order) && !Own(es, x)
    decreases |order|
  {
    hide ShowsItem, EndsIn, Own;
    if Own(es, order[0]) {
      var rest := order[1..];
      assert forall j :: 0 <= j < |rest| ==> rest[j] == order[j + 1];
      ForeignHeard(es, rest, m - 1);
      var x :| x in Heard(es, rest) && !Own(es, x);
      assert x in Heard(es, order);
    } else {
      assert order[0] in Heard(es, order);
    }
  }

  lemma NumbersOwn(d: seq<Sector>, spc: nat, s: seq<nat>, m: nat)
    requires InArea(|d|, spc, s)
    ensures Own(DirSlots(d, spc, s), m) <==> m < Times(spc, |s|)
  {
    SlotsCount(d, spc, s);
    hide Times;
  }

  lemma SlotsCount(d: seq<Sector>, spc: nat, s: seq<nat>)
    requires InArea(|d|, spc, s)
    ensures |DirSlots(d, spc, s)| == SLOTS * Times(spc, |s|)
  {
  }

  /** A loop that leaves the directory hears what is not the directory's. */
  lemma OutsideHeard(d: seq<Sector>, spc: nat, s: seq<nat>, es: seq<Entry>, m: nat)
    requires Directory(d, spc, s) && LapsFit(|d|, spc, spc + 1, s) && InArea(|d|, spc, s)
    requires es == DirSlots(d, spc, s) && Tidy(es, 0, 0) && Reached(d, spc, s, m) && LapOf(spc + 1, m) < |s|
    requires InLap(spc + 1, m) == spc && s[LapOf(spc + 1, m)] + 1 !in s
    ensures Heard(es, CompiledOrder(spc, s)) != Heard(es, RightOrder(spc, s))
  {
    DirectoryParts(d, spc, s);
    PlacesAt(d, spc, spc + 1, s);
    ReachedInside(d, spc, s, m);
    QuietReached(d, spc, s, m);
    hide LapOf, InLap, Times, Base, PlaceAt, Places, LapsFit, Directory, Reached, NumberRead, DirSlots, Own, EndsIn;
    hide Heard, Ends, Tidy, InArea;
    var order, ps := CompiledOrder(spc, s), Places(spc, spc + 1, s);
    NumberPlace(spc, s, m);
    NumbersOwn(d, spc, s, order[m]);
    forall j | 0 <= j < m && Own(es, order[j])
      ensures !EndsIn(es, order[j])
    {
      NumbersOwn(d, spc, s, order[j]);
      NumberPlace(spc, s, j);
      OwnSector(d, spc, s, es, order[j]);
    }
    ForeignHeard(es, order, m);
    var x :| x in Heard(es, order) && !Own(es, x);
    NumbersOwn(d, spc, s, x);
    HeardIn(es, RightOrder(spc, s));
  }

  /** For every directory that is in order: the compiled loop sees what is there, whatever lies
      around the directory, exactly when, reading the directory's own sectors in its order until an
      end mark, it comes across those that show an item as if it read them one after the other, and
      across nothing else. */
  lemma RightIff(d: seq<Sector>, spc: nat, s: seq<nat>)
    requires Directory(d, spc, s) && LapsFit(|d|, spc, spc + 1, s) && InArea(|d|, spc, s)
    requires Tidy(DirSlots(d, spc, s), 0, 0)
    ensures Heard(DirSlots(d, spc, s), CompiledOrder(spc, s)) == Heard(DirSlots(d, spc, s), RightOrder(spc, s)) <==>
            forall d' :: SameDirectory(d, d', spc, s) ==> SeesRight(d', spc, s)
  {
    hide *;
    DirectoryParts(d, spc, s);
    RightAnywhereIff(d, spc, s);
    var es := DirSlots(d, spc, s);
    if StaysInside(d, spc, s) {
      InsideIff(d, spc, s, es);
    } else {
      NotInside(d, spc, s, es);
    }
  }

  lemma NotInside(d: seq<Sector>, spc: nat, s: seq<nat>, es: seq<Entry>)
    requires Directory(d, spc, s) && LapsFit(|d|, spc, spc + 1, s) && InArea(|d|, spc, s)
    requires es == DirSlots(d, spc, s) && Tidy(es, 0, 0) && !StaysInside(d, spc, s)
    ensures spc > 0 && Heard(es, CompiledOrder(spc, s)) != Heard(es, RightOrder(spc, s))
  {
    DirectoryParts(d, spc, s);
    hide LapOf, InLap, Times, Base, LapsFit, Directory, Reached, DirSlots, Heard, Tidy, InArea;
    var m: nat :|
      Reached(d, spc, s, m) && InLap(spc + 1, m) == spc && LapOf(spc + 1, m) < |s| && s[LapOf(spc + 1, m)] + 1 !in s;
    OutsideHeard(d, spc, s, es, m);
  }

  // ---- looking for room ----

  predicate HasPlace(es: seq<Entry>, n: nat, m: nat)
    requires Own(es, m)
  {
    RoomFrom(SectorOf(es, m), 0, 0, n) > n
  }

  /** The first sector in `order` with room for a run of `n` + 1 entries; one that is not the
      directory's counts as one. */
  function Chosen(es: seq<Entry>, n: nat, order: seq<nat>): Option<nat> {
    if order == [] then None
    else if !Own(es, order[0]) || HasPlace(es, n, order[0]) then Some(order[0])
    else Chosen(es, n, order[1..])
  }

  ghost predicate SearchOrdered(d: seq<Sector>, spc: nat, lap: nat, s: seq<nat>, n: nat, order: seq<nat>)
    requires spc > 0 && LapsFit(|d|, spc, lap, s)
  {
    && |order| == Times(lap, |s|)
    && forall m :: 0 <= m < Times(lap, |s|) && SearchReaches(d, spc, lap, s, n, m) ==>
      StepOrdered(spc, lap, s, m, order[m])
  }

  ghost predicate StepOrdered(spc: nat, lap: nat, s: seq<nat>, m: nat, number: nat)
    requires spc > 0 && lap > 0
  {
    && LapOf(lap, m) < |s| && s[LapOf(lap, m)] >= 2 && number < Times(spc, |s|) && LapOf(spc, number) < |s|
    && s[LapOf(spc, number)] >= 2
    && PlaceAt(spc, lap, s, m) == PlaceAt(spc, spc, s, number)
  }

  /** A search and the choice in its order come to the same. */
  ghost predicate Corresponds(spc: nat, s: seq<nat>, at: Option<nat>, number: Option<nat>) {
    && spc > 0 && (at.Some? <==> number.Some?)
    && (number.Some? ==> number.value < Times(spc, |s|) && LapOf(spc, number.value) < |s|
                         && s[LapOf(spc, number.value)] >= 2
                         && at.value == PlaceAt(spc, spc, s, number.value))
  }

  lemma OwnRoom(d: seq<Sector>, spc: nat, lap: nat, s: seq<nat>, es: seq<Entry>, n: nat, m: nat, number: nat)
    requires Directory(d, spc, s) && InArea(|d|, spc, s) && es == DirSlots(d, spc, s) && LapsFit(|d|, spc, lap, s)
    requires spc > 0 && lap > 0 && m < Times(lap, |s|) && StepOrdered(spc, lap, s, m, number)
    ensures Own(es, number) && (HasPlace(es, n, number) <==> Takes(SectorRead(d, spc, lap, s, m), n))
  {
    hide *;
    DirectoryParts(d, spc, s);
    StepParts(spc, lap, s, m, number);
    SlotsRead(d, spc, s, number);
    SectorReadIs(d, spc, lap, s, m);
    SectorReadIs(d, spc, spc, s, number);
    RoomThere(es, n, number, SectorRead(d, spc, spc, s, number));
  }

  lemma StepParts(spc: nat, lap: nat, s: seq<nat>, m: nat, number: nat)
    requires spc > 0 && lap > 0 && StepOrdered(spc, lap, s, m, number)
    ensures LapOf(lap, m) < |s| && s[LapOf(lap, m)] >= 2 && number < Times(spc, |s|)
    ensures LapOf(spc, number) < |s| && s[LapOf(spc, number)] >= 2
    ensures PlaceAt(spc, lap, s, m) == PlaceAt(spc, spc, s, number)
  {
  }

  lemma SectorReadIs(d: seq<Sector>, spc: nat, lap: nat, s: seq<nat>, m: nat)
    requires LapsFit(|d|, spc, lap, s) && m < Times(lap, |s|)
    ensures lap > 0 && LapOf(lap, m) < |s| && s[LapOf(lap, m)] >= 2 && PlaceAt(spc, lap, s, m) < |d|
    ensures SectorRead(d, spc, lap, s, m) == d[PlaceAt(spc, lap, s, m)]
  {
    PlaceFits(|d|, spc, lap, s, m);
    hide LapOf, Times, PlaceAt;
  }

  lemma RoomThere(es: seq<Entry>, n: nat, m: nat, x: Sector)
    requires SLOTS * (m + 1) <= |es| && es[SLOTS * m..SLOTS * (m + 1)] == Slots(x)
    ensures Own(es, m) && (HasPlace(es, n, m) <==> Takes(x, n))
  {
    hide Slots, RoomFrom;
    assert SectorOf(es, m) == Slots(x);
  }

  lemma {:induction false} SearchChosen(d: seq<Sector>, spc: nat, lap: nat, s: seq<nat>, es: seq<Entry>, n: nat,
                                        order: seq<nat>, m: nat)
    requires Directory(d, spc, s) && InArea(|d|, spc, s) && es == DirSlots(d, spc, s) && LapsFit(|d|, spc, lap, s)
    requires spc > 0 && lap > 0 && SearchOrdered(d, spc, lap, s, n, order) && SearchReaches(d, spc, lap, s, n, m)
    requires m <= |order|
    ensures Corresponds(spc, s, SearchFrom(d, spc, lap, s, n, m), Chosen(es, n, order[m..]))
    decreases |order| - m
  {
    hide LapOf, InLap, Times, Base, DirSlots, Directory, Takes, HasPlace, Own, PlaceAt, SectorRead, LapsFit, InArea;
    if m < |order| {
      assert StepOrdered(spc, lap, s, m, order[m]);
      OwnRoom(d, spc, lap, s, es, n, m, order[m]);
      assert order[m..][0] == order[m] && order[m..][1..] == order[m + 1..];
      if !Takes(SectorRead(d, spc, lap, s, m), n) {
        SearchChosen(d, spc, lap, s, es, n, order, m + 1);
      }
    }
  }

  lemma RightSearchOrdered(d: seq<Sector>, spc: nat, s: seq<nat>, n: nat)
    requires Directory(d, spc, s)
    ensures LapsFit(|d|, spc, spc, s) && SearchOrdered(d, spc, spc, s, n, RightOrder(spc, s))
  {
    DirectoryParts(d, spc, s);
    PlacesAt(d, spc, spc, s);
    hide LapOf, InLap, Times, Base, PlaceAt, LapsFit, Directory, SearchReaches;
  }

  lemma CompiledSearchOrdered(d: seq<Sector>, spc: nat, s: seq<nat>, n: nat)
    requires Directory(d, spc, s) && LapsFit(|d|, spc, spc + 1, s) && SearchStays(d, spc, s, n)
    ensures SearchOrdered(d, spc, spc + 1, s, n, CompiledOrder(spc, s))
  {
    DirectoryParts(d, spc, s);
    hide LapOf, InLap, Times, Base, PlaceAt, LapsFit, Directory, SearchReaches, NumberRead;
    forall m | 0 <= m < Times(spc + 1, |s|) && SearchReaches(d, spc, spc + 1, s, n, m)
      ensures StepOrdered(spc, spc + 1, s, m, CompiledOrder(spc, s)[m])
    {
      NumberPlace(spc, s, m);
      assert SearchGets(d, spc, s, n, m);
      assert CompiledOrder(spc, s)[m] == NumberRead(spc, s, m);
      NumberCluster(spc, s, NumberRead(spc, s, m));
    }
  }

  lemma NumberCluster(spc: nat, s: seq<nat>, m: nat)
    requires spc > 0
    ensures m < Times(spc, |s|) ==> LapOf(spc, m) < |s|
  {
    if m < Times(spc, |s|) {
      LapWithin(spc, m, |s|);
    }
  }

  lemma CorrespondsOne(spc: nat, s: seq<nat>, at: Option<nat>, a: Option<nat>, at': Option<nat>, b: Option<nat>)
    requires Distinct(s) && (forall i :: 0 <= i < |s| ==> s[i] >= 2)
    requires Corresponds(spc, s, at, a) && Corresponds(spc, s, at', b)
    ensures at == at' <==> a == b
  {
    hide LapOf, InLap, Times, Base, PlaceAt;
    if a.Some? && b.Some? && a != b {
      PlacesDiffer(spc, s, a.value, b.value);
    }
  }

  /** A search that leaves the directory chooses what is not the directory's, or stops before. */
  lemma {:induction false} ForeignChosen(es: seq<Entry>, n: nat, order: seq<nat>, m: nat)
    requires m < |order| && !Own(es, order[m])
    requires forall j :: 0 <= j < m && Own(es, order[j]) ==> !HasPlace(es, n, order[j])
    ensures Chosen(es, n, order).Some? && !Own(es, Chosen(es, n, order).value)
    decreases |order|
  {
    hide HasPlace, Own;
    if Own(es, order[0]) {
      var rest := order[1..];
      assert forall j :: 0 <= j < |rest| ==> rest[j] == order[j + 1];
      ForeignChosen(es, n, rest, m - 1);
    }
  }

  lemma {:induction false} ChosenIn(es: seq<Entry>, n: nat, order: seq<nat>)
    ensures Chosen(es, n, order).Some? ==> Chosen(es, n, order).value in order
    decreases |order|
  {
    hide HasPlace, Own;
    if order != [] {
      ChosenIn(es, n, order[1..]);
    }
  }

  lemma OutsideChosen(d: seq<Sector>, spc: nat, s: seq<nat>, es: seq<Entry>, n: nat, m: nat)
    requires Directory(d, spc, s) && LapsFit(|d|, spc, spc + 1, s) && InArea(|d|, spc, s)
    requires es == DirSlots(d, spc, s) && SearchGets(d, spc, s, n, m) && LapOf(spc + 1, m) < |s|
    requires InLap(spc + 1, m) == spc && s[LapOf(spc + 1, m)] + 1 !in s
    ensures Chosen(es, n, CompiledOrder(spc, s)) != Chosen(es, n, RightOrder(spc, s))
  {
    DirectoryParts(d, spc, s);
    hide LapOf, InLap, Times, Base, PlaceAt, LapsFit, Directory, NumberRead, DirSlots, Own, HasPlace, Chosen, Takes;
    hide InArea, SectorRead;
    var order := CompiledOrder(spc, s);
    NumberPlace(spc, s, m);
    NumbersOwn(d, spc, s, order[m]);
    forall j | 0 <= j < m && Own(es, order[j])
      ensures !HasPlace(es, n, order[j])
    {
      NumbersOwn(d, spc, s, order[j]);
      NumberPlace(spc, s, j);
      NumberCluster(spc, s, order[j]);
      OwnRoom(d, spc, spc + 1, s, es, n, j, order[j]);
    }
    ForeignChosen(es, n, order, m);
    NumbersOwn(d, spc, s, Chosen(es, n, order).value);
    ChosenIn(es, n, RightOrder(spc, s));
  }

  /** For every directory and every name: the compiled search for room ends where it should, whatever
      lies around the directory, exactly when the first of the directory's own sectors with room is
      the same in the order in which it comes across them, and it leaves the directory no earlier. */
  lemma FindsIff(d: seq<Sector>, spc: nat, s: seq<nat>, n: nat)
    requires Directory(d, spc, s) && LapsFit(|d|, spc, spc + 1, s) && InArea(|d|, spc, s) && n < SLOTS
    ensures Chosen(DirSlots(d, spc, s), n, CompiledOrder(spc, s)) ==
            Chosen(DirSlots(d, spc, s), n, RightOrder(spc, s)) <==>
            forall d' :: SameDirectory(d, d', spc, s) ==> FindsRight(d', spc, s, n)
  {
    DirectoryParts(d, spc, s);
    FindsAnywhereIff(d, spc, s, n);
    IsDistinct(d, spc, s);
    var es := DirSlots(d, spc, s);
    hide LapOf, InLap, Times, Base, PlaceAt, LapsFit, Directory, SearchGets, DirSlots, Chosen, InArea, FindsRight;
    hide CompiledOrder, RightOrder;
    if SearchStays(d, spc, s, n) {
      SearchSame(d, spc, s, es, n);
    } else {
      var m: nat :| SearchGets(d, spc, s, n, m) && InLap(spc + 1, m) == spc && LapOf(spc + 1, m) < |s|
                    && s[LapOf(spc + 1, m)] + 1 !in s;
      OutsideChosen(d, spc, s, es, n, m);
    }
  }

  lemma SearchSame(d: seq<Sector>, spc: nat, s: seq<nat>, es: seq<Entry>, n: nat)
    requires Directory(d, spc, s) && LapsFit(|d|, spc, spc + 1, s) && InArea(|d|, spc, s) && es == DirSlots(d, spc, s)
    requires SearchStays(d, spc, s, n)
    ensures FindsRight(d, spc, s, n) <==> Chosen(es, n, CompiledOrder(spc, s)) == Chosen(es, n, RightOrder(spc, s))
  {
    hide *;
    DirectoryParts(d, spc, s);
    IsDistinct(d, spc, s);
    RightSearchOrdered(d, spc, s, n);
    CompiledSearchOrdered(d, spc, s, n);
    ReachesFirst(d, spc, spc + 1, s, n);
    ReachesFirst(d, spc, spc, s, n);
    SearchChosen(d, spc, spc + 1, s, es, n, CompiledOrder(spc, s), 0);
    SearchChosen(d, spc, spc, s, es, n, RightOrder(spc, s), 0);
    WholeOrders(spc, s);
    FindsRightIs(d, spc, s, n);
    CorrespondsOne(spc, s, SearchFrom(d, spc, spc + 1, s, n, 0), Chosen(es, n, CompiledOrder(spc, s)),
                   SearchFrom(d, spc, spc, s, n, 0), Chosen(es, n, RightOrder(spc, s)));
  }

  lemma WholeOrders(spc: nat, s: seq<nat>)
    requires spc > 0
    ensures CompiledOrder(spc, s)[0..] == CompiledOrder(spc, s) && RightOrder(spc, s)[0..] == RightOrder(spc, s)
  {
  }
}
