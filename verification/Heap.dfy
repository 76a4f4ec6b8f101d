/** The kernel heap (src/memorymanagement.c): a doubly linked list of chunks, each a 16-byte
    descriptor and the bytes behind it. */
module Heaps {

  const HEADER := 16            // sizeof(MemoryChunck) on a 32-bit machine
  const WORD := 0x1_0000_0000

  /** A chunk in the order of the list: where its descriptor is, how many bytes follow it. */
  datatype Block = Block(at: nat, size: nat, used: bool)

  function EndOf(b: Block): nat {
    b.at + HEADER + b.size
  }

  // ---- what a row of blocks should be ----

  /** The blocks cover the region from `start` to `end` without gaps. */
  ghost predicate Tiles(bs: seq<Block>, start: nat, end: nat) {
    && bs != [] && bs[0].at == start && EndOf(bs[|bs| - 1]) == end
    && forall i :: 0 <= i < |bs| - 1 ==> EndOf(bs[i]) == bs[i + 1].at
  }

  ghost predicate Coalesced(bs: seq<Block>) {
    forall i :: 0 <= i < |bs| - 1 ==> bs[i].used || bs[i + 1].used
  }

  ghost predicate Good(bs: seq<Block>, start: nat, end: nat) {
    0 < start && end <= WORD && Tiles(bs, start, end) && Coalesced(bs)
  }

  lemma {:induction false} Ascending(bs: seq<Block>, start: nat, end: nat, i: nat, j: nat)
    requires Tiles(bs, start, end) && i < j < |bs|
    ensures EndOf(bs[i]) <= bs[j].at
    decreases j
  {
    if i < j - 1 {
      Ascending(bs, start, end, i, j - 1);
    }
  }

  lemma InRegion(bs: seq<Block>, start: nat, end: nat, i: nat)
    requires Tiles(bs, start, end) && i < |bs|
    ensures start <= bs[i].at && EndOf(bs[i]) <= end
  {
    if i > 0 {
      Ascending(bs, start, end, 0, i);
    }
    if i < |bs| - 1 {
      Ascending(bs, start, end, i, |bs| - 1);
    }
  }

  /** Descriptors and payloads together. */
  function Sum(bs: seq<Block>): nat {
    if bs == [] then 0 else HEADER + bs[0].size + Sum(bs[1..])
  }

  /** No byte is ever lost: what the blocks take adds up to the region. */
  lemma {:induction false} Conservation(bs: seq<Block>, start: nat, end: nat)
    requires Tiles(bs, start, end)
    ensures Sum(bs) == end - start
    decreases |bs|
  {
    if |bs| > 1 {
      Conservation(bs[1..], bs[1].at, end);
    } else {
      assert Sum(bs[1..]) == 0;
    }
  }

  /** When everything is free again, the heap is the one chunk it was. */
  lemma AllFree(bs: seq<Block>, start: nat, end: nat)
    requires Good(bs, start, end) && forall i :: 0 <= i < |bs| ==> !bs[i].used
    ensures start + HEADER <= end && bs == [Block(start, end - start - HEADER, false)]
  {
    if |bs| > 1 {
      OneUsed(bs);
      assert false;
    }
    InRegion(bs, start, end, 0);
  }

  lemma OneUsed(bs: seq<Block>)
    requires Coalesced(bs) && |bs| > 1
    ensures exists i :: 0 <= i < |bs| && bs[i].used
  {
    assert bs[0].used || bs[0 + 1].used;
  }

  // ---- live allocations ----

  /** The memory that callers hold: first byte and length. */
  ghost function Live(bs: seq<Block>): set<(nat, nat)> {
    set i | 0 <= i < |bs| && bs[i].used :: (bs[i].at + HEADER, bs[i].size)
  }

  ghost predicate Apart(a: (nat, nat), b: (nat, nat)) {
    a.0 + a.1 <= b.0 || b.0 + b.1 <= a.0
  }

  /** What callers hold lies in the region, and no two of them share a byte or a first byte. */
  lemma LiveApart(bs: seq<Block>, start: nat, end: nat, a: (nat, nat), b: (nat, nat))
    requires Tiles(bs, start, end) && a in Live(bs) && b in Live(bs)
    ensures start + HEADER <= a.0 && a.0 + a.1 <= end
    ensures a != b ==> Apart(a, b) && a.0 != b.0
  {
    var i :| 0 <= i < |bs| && bs[i].used && a == (bs[i].at + HEADER, bs[i].size);
    var j :| 0 <= j < |bs| && bs[j].used && b == (bs[j].at + HEADER, bs[j].size);
    InRegion(bs, start, end, i);
    if i < j {
      Ascending(bs, start, end, i, j);
    } else if j < i {
      Ascending(bs, start, end, j, i);
    }
  }

  // ---- taking a block ----

  /** The search of malloc (:39-43): free and strictly larger than the request. */
  predicate Fits(b: Block, size: nat) {
    b.size > size && !b.used
  }

  function FirstFit(bs: seq<Block>, size: nat): (i: nat)
    ensures i <= |bs| && (i < |bs| ==> Fits(bs[i], size))
    ensures forall j :: 0 <= j < i ==> !Fits(bs[j], size)
  {
    if bs == [] || Fits(bs[0], size) then 0 else
      assert forall j :: 0 < j < |bs| ==> bs[j] == bs[1..][j - 1];
      1 + FirstFit(bs[1..], size)
  }

  function Replace(bs: seq<Block>, lo: nat, hi: nat, mid: seq<Block>): (r: seq<Block>)
    requires lo <= hi <= |bs|
    ensures |r| == |bs| - (hi - lo) + |mid|
    ensures forall k :: 0 <= k < |r| ==>
      r[k] == if k < lo then bs[k] else if k < lo + |mid| then mid[k - lo] else bs[k - |mid| + (hi - lo)]
  {
    bs[..lo] + mid + bs[hi..]
  }

  lemma LiveJoin(a: seq<Block>, b: seq<Block>)
    ensures Live(a + b) == Live(a) + Live(b)
  {
    forall x | x in Live(a)
      ensures x in Live(a + b)
    {
      var i :| 0 <= i < |a| && a[i].used && x == (a[i].at + HEADER, a[i].size);
      assert (a + b)[i] == a[i];
    }
    forall x | x in Live(b)
      ensures x in Live(a + b)
    {
      var i :| 0 <= i < |b| && b[i].used && x == (b[i].at + HEADER, b[i].size);
      assert (a + b)[|a| + i] == b[i];
    }
  }

  lemma LiveReplace(bs: seq<Block>, lo: nat, hi: nat, mid: seq<Block>)
    requires lo <= hi <= |bs|
    ensures Live(Replace(bs, lo, hi, mid)) == Live(bs[..lo]) + Live(mid) + Live(bs[hi..])
    ensures Live(bs) == Live(bs[..lo]) + Live(bs[lo..hi]) + Live(bs[hi..])
  {
    LiveJoin(bs[..lo] + mid, bs[hi..]);
    LiveJoin(bs[..lo], mid);
    assert bs == bs[..lo] + bs[lo..hi] + bs[hi..];
    LiveJoin(bs[..lo] + bs[lo..hi], bs[hi..]);
    LiveJoin(bs[..lo], bs[lo..hi]);
  }

  /** A block handed out: cut in two if the rest has room for a descriptor and a byte (:49-62). */
  function Cut(b: Block, size: nat): (r: seq<Block>)
    ensures 1 <= |r| <= 2
  {
    if b.size >= size + HEADER + 1 then
      [Block(b.at, size, true), Block(b.at + HEADER + size, b.size - size - HEADER, false)]
    else [b.(used := true)]
  }

  function Taken(bs: seq<Block>, i: nat, size: nat): seq<Block>
    requires i < |bs|
  {
    Replace(bs, i, i + 1, Cut(bs[i], size))
  }

  lemma CutLive(b: Block, size: nat)
    requires Fits(b, size)
    ensures var mid := Cut(b, size);
      Live(mid) == {(b.at + HEADER, mid[0].size)} && size <= mid[0].size <= b.size && Live([b]) == {}
  {
    var mid := Cut(b, size);
    assert mid[0].used;
    forall a | a in Live(mid)
      ensures a == (b.at + HEADER, mid[0].size)
    {
      var i :| 0 <= i < |mid| && mid[i].used && a == (mid[i].at + HEADER, mid[i].size);
      assert i == 0;
    }
  }

  /** The bytes that are still to be had, in all. */
  ghost function FreeBytes(bs: seq<Block>): nat {
    if bs == [] then 0 else (if bs[0].used then 0 else bs[0].size) + FreeBytes(bs[1..])
  }

  lemma {:induction false} FreeBytesJoin(a: seq<Block>, b: seq<Block>)
    ensures FreeBytes(a + b) == FreeBytes(a) + FreeBytes(b)
    decreases |a|
  {
    if a == [] {
      assert a + b == b;
    } else {
      assert (a + b)[1..] == a[1..] + b;
      FreeBytesJoin(a[1..], b);
    }
  }

  /** What is handed out and what is left, in the chunk's own numbers: a chunk of at least 17 bytes more
      than requested is cut, one descriptor of 16 bytes is spent, and the rest is free right behind. */
  lemma TakenExactly(bs: seq<Block>, i: nat, size: nat)
    requires i < |bs| && !bs[i].used && bs[i].size > size
    ensures var was, ptr, r := bs[i].size, bs[i].at + 16, Taken(bs, i, size);
      if was >= size + 17 then
        && r == bs[..i] + [Block(bs[i].at, size, true), Block(ptr + size, was - size - 16, false)] + bs[i + 1..]
        && Live(r) == Live(bs) + {(ptr, size)} && FreeBytes(r) + size + 16 == FreeBytes(bs)
      else
        && r == bs[..i] + [Block(bs[i].at, was, true)] + bs[i + 1..]
        && Live(r) == Live(bs) + {(ptr, was)} && FreeBytes(r) + was == FreeBytes(bs)
  {
    hide *;
    CutExactly(bs[i], size);
    TakenRow(bs, i, size);
    TakenFree(bs, i, size);
    TakenAdds(bs, i, size);
  }

  lemma CutExactly(b: Block, size: nat)
    requires !b.used && b.size > size
    ensures Live([b]) == {} && FreeBytes([b]) == b.size
    ensures b.size >= size + 17 ==>
      && Cut(b, size) == [Block(b.at, size, true), Block(b.at + 16 + size, b.size - size - 16, false)]
      && Live(Cut(b, size)) == {(b.at + 16, size)} && FreeBytes(Cut(b, size)) == b.size - size - 16
    ensures b.size < size + 17 ==>
      && Cut(b, size) == [Block(b.at, b.size, true)]
      && Live(Cut(b, size)) == {(b.at + 16, b.size)} && FreeBytes(Cut(b, size)) == 0
  {
    CutLive(b, size);
    hide Live;
    var mid := Cut(b, size);
    assert [b][1..] == [] && mid[1..] == if |mid| == 2 then [mid[1]] else [];
    assert |mid| == 2 ==> [mid[1]][1..] == [];
  }

  lemma TakenRow(bs: seq<Block>, i: nat, size: nat)
    requires i < |bs|
    ensures Taken(bs, i, size) == bs[..i] + Cut(bs[i], size) + bs[i + 1..]
  {
    hide Cut;
  }

  lemma FreeBytesParts(a: seq<Block>, mid: seq<Block>, b: seq<Block>)
    ensures FreeBytes(a + mid + b) == FreeBytes(a) + FreeBytes(mid) + FreeBytes(b)
  {
    hide *;
    FreeBytesJoin(a + mid, b);
    FreeBytesJoin(a, mid);
  }

  lemma TakenFree(bs: seq<Block>, i: nat, size: nat)
    requires i < |bs|
    ensures FreeBytes(Taken(bs, i, size)) + FreeBytes([bs[i]]) == FreeBytes(bs) + FreeBytes(Cut(bs[i], size))
  {
    hide *;
    TakenRow(bs, i, size);
    FreeBytesParts(bs[..i], Cut(bs[i], size), bs[i + 1..]);
    FreeBytesParts(bs[..i], [bs[i]], bs[i + 1..]);
    OneOf(bs, i);
  }

  lemma OneOf(bs: seq<Block>, i: nat)
    requires i < |bs|
    ensures bs[..i] + [bs[i]] + bs[i + 1..] == bs
  {
  }

  lemma TakenAdds(bs: seq<Block>, i: nat, size: nat)
    requires i < |bs| && Live([bs[i]]) == {}
    ensures Live(Taken(bs, i, size)) == Live(bs) + Live(Cut(bs[i], size))
  {
    hide Cut, Live;
    var mid, a, b := Cut(bs[i], size), bs[..i], bs[i + 1..];
    assert bs == a + [bs[i]] + b;
    LiveJoin(a + mid, b);
    LiveJoin(a, mid);
    LiveJoin(a + [bs[i]], b);
    LiveJoin(a, [bs[i]]);
  }

  /** The rest of a chunk that was cut lies right behind what was handed out. */
  lemma TakenBehind(bs: seq<Block>, i: nat, size: nat)
    requires i < |bs| && !bs[i].used && bs[i].size >= size + 17
    ensures Block(bs[i].at + 16 + size, bs[i].size - size - 16, false) in Taken(bs, i, size)
  {
    CutExactly(bs[i], size);
    assert Taken(bs, i, size)[i + 1] == Cut(bs[i], size)[1];
  }

  /** The search finds the first chunk that is not in use and larger than the request. */
  lemma WhatFits(bs: seq<Block>, size: nat)
    ensures var i := FirstFit(bs, size);
      && (i == |bs| <==> forall k :: 0 <= k < |bs| ==> bs[k].used || bs[k].size <= size)
      && (i < |bs| ==> !bs[i].used && bs[i].size > size)
      && forall k :: 0 <= k < i ==> bs[k].used || bs[k].size <= size
  {
  }

  lemma TakenGood(bs: seq<Block>, start: nat, end: nat, i: nat, size: nat)
    requires Good(bs, start, end) && i < |bs| && Fits(bs[i], size)
    ensures Good(Taken(bs, i, size), start, end)
  {
    var r := Taken(bs, i, size);
    forall k | 0 <= k < |r| - 1
      ensures EndOf(r[k]) == r[k + 1].at && (r[k].used || r[k + 1].used)
    {
      if k > i {
        assert |r| > |bs| ==> bs[k - 1].used || bs[k].used;
      }
    }
  }

  /** Exactly one allocation is added. It is as large as requested, and apart from all others. */
  lemma TakenLive(bs: seq<Block>, start: nat, end: nat, i: nat, size: nat)
    requires Good(bs, start, end) && i < |bs| && Fits(bs[i], size)
    ensures var got := (bs[i].at + HEADER, Taken(bs, i, size)[i].size);
      && Live(Taken(bs, i, size)) == Live(bs) + {got}
      && got.1 == (if bs[i].size >= size + 17 then size else bs[i].size) >= size
      && (forall a :: a in Live(bs) ==> Apart(a, got) && a.0 != got.0)
  {
    CutSize(bs[i], size);
    hide Apart, Live, Cut, Tiles, Coalesced;
    var mid := Cut(bs[i], size);
    CutLive(bs[i], size);
    LiveReplace(bs, i, i + 1, mid);
    LiveReplace(bs, i, i + 1, []);
    LiveNone();
    assert bs[i..i + 1] == [bs[i]];
    forall a | a in Live(bs)
      ensures Apart(a, (bs[i].at + HEADER, mid[0].size)) && a.0 != bs[i].at + HEADER
    {
      OthersApart(bs, start, end, i, a, mid[0].size);
    }
  }

  lemma CutSize(b: Block, size: nat)
    requires b.size > size
    ensures Cut(b, size)[0].size == if b.size >= size + 17 then size else b.size
  {
  }

  lemma LiveNone()
    ensures Live([]) == {}
  {
  }

  lemma OthersApart(bs: seq<Block>, start: nat, end: nat, i: nat, a: (nat, nat), size: nat)
    requires Tiles(bs, start, end) && i < |bs| && size <= bs[i].size
    requires a in Live(Replace(bs, i, i + 1, []))
    ensures Apart(a, (bs[i].at + HEADER, size)) && a.0 != bs[i].at + HEADER
  {
    var s := Replace(bs, i, i + 1, []);
    var k :| 0 <= k < |s| && s[k].used && a == (s[k].at + HEADER, s[k].size);
    if k < i {
      Ascending(bs, start, end, k, i);
    } else {
      Ascending(bs, start, end, i, k + 1);
    }
  }

  // ---- giving a block back ----

  function Low(bs: seq<Block>, i: nat): (lo: nat)
    requires i < |bs|
    ensures lo <= i
  {
    if i > 0 && !bs[i - 1].used then i - 1 else i
  }

  predicate FreeBehind(bs: seq<Block>, i: nat)
    requires i < |bs|
  {
    i + 1 < |bs| && !bs[i + 1].used
  }

  /** Block `i` merged with its free neighbours. */
  function Given(bs: seq<Block>, i: nat): seq<Block>
    requires i < |bs|
  {
    var lo, hi := Low(bs, i), if FreeBehind(bs, i) then i + 2 else i + 1;
    var before := if lo < i then bs[lo].size + HEADER else 0;
    var behind := if FreeBehind(bs, i) then bs[i + 1].size + HEADER else 0;
    Replace(bs, lo, hi, [Block(bs[lo].at, before + bs[i].size + behind, false)])
  }

  lemma GivenGood(bs: seq<Block>, start: nat, end: nat, i: nat)
    requires Good(bs, start, end) && i < |bs| && bs[i].used
    ensures Good(Given(bs, i), start, end)
  {
    var r, lo := Given(bs, i), Low(bs, i);
    var d := |bs| - |r|;
    forall k | 0 <= k < |r| - 1
      ensures EndOf(r[k]) == r[k + 1].at && (r[k].used || r[k + 1].used)
    {
      if k < lo {
        assert bs[k].used || bs[k + 1].used;
      } else {
        assert r[k + 1] == bs[k + 1 + d];
        assert bs[k + d].used || bs[k + d + 1].used;
      }
    }
  }

  /** Exactly that one allocation is gone. */
  lemma GivenLive(bs: seq<Block>, start: nat, end: nat, i: nat)
    requires Good(bs, start, end) && i < |bs| && bs[i].used
    ensures Live(Given(bs, i)) == Live(bs) - {(bs[i].at + HEADER, bs[i].size)}
  {
    hide Live, Apart, Tiles, Coalesced;
    var lo, hi, gone := Low(bs, i), if FreeBehind(bs, i) then i + 2 else i + 1, (bs[i].at + HEADER, bs[i].size);
    var mid := [Given(bs, i)[lo]];
    assert Given(bs, i) == Replace(bs, lo, hi, mid);
    LiveReplace(bs, lo, hi, mid);
    LiveReplace(bs, i, i + 1, []);
    LiveNone();
    UnusedLive(mid[0]);
    MiddleLive(bs, i);
    if gone in Live(Replace(bs, i, i + 1, [])) {
      OthersApart(bs, start, end, i, gone, bs[i].size);
    }
    FrontLive(bs, lo, i);
    BackLive(bs, i, hi);
  }

  /** What callers have to give back. */
  ghost function Pointers(bs: seq<Block>): set<nat> {
    set i | 0 <= i < |bs| && bs[i].used :: bs[i].at + HEADER
  }

  lemma PointersOfLive(bs: seq<Block>)
    ensures forall q :: q in Pointers(bs) <==> exists n :: (q, n) in Live(bs)
  {
    forall q | q in Pointers(bs)
      ensures exists n :: (q, n) in Live(bs)
    {
      var i :| 0 <= i < |bs| && bs[i].used && q == bs[i].at + HEADER;
      assert (q, bs[i].size) in Live(bs);
    }
  }

  lemma GivenPointers(bs: seq<Block>, start: nat, end: nat, i: nat)
    requires Good(bs, start, end) && i < |bs| && bs[i].used
    ensures Pointers(Given(bs, i)) == Pointers(bs) - {bs[i].at + HEADER}
  {
    var r, gone := Given(bs, i), (bs[i].at + HEADER, bs[i].size);
    assert gone in Live(bs);
    GivenLive(bs, start, end, i);
    PointersOfLive(bs);
    PointersOfLive(r);
    hide Given, Live, Pointers, Apart, Coalesced;
    forall q
      ensures q in Pointers(r) <==> q in Pointers(bs) && q != gone.0
    {
      if q in Pointers(r) {
        var n :| (q, n) in Live(r);
        LiveApart(bs, start, end, (q, n), gone);
      }
      if q in Pointers(bs) && q != gone.0 {
        var n :| (q, n) in Live(bs);
        assert (q, n) in Live(r);
      }
    }
  }

  lemma UnusedLive(b: Block)
    requires !b.used
    ensures Live([b]) == {}
  {
  }

  lemma MiddleLive(bs: seq<Block>, i: nat)
    requires i < |bs| && bs[i].used
    ensures Live(bs[i..i + 1]) == {(bs[i].at + HEADER, bs[i].size)}
  {
    assert bs[i..i + 1] == [bs[i]];
    assert [bs[i]][0].used;
  }

  lemma FrontLive(bs: seq<Block>, lo: nat, i: nat)
    requires lo <= i < |bs| && lo == Low(bs, i)
    ensures Live(bs[..i]) == Live(bs[..lo])
  {
    if lo < i {
      assert bs[..i] == bs[..lo] + [bs[lo]];
      LiveJoin(bs[..lo], [bs[lo]]);
      assert Live([bs[lo]]) == {};
    }
  }

  lemma BackLive(bs: seq<Block>, i: nat, hi: nat)
    requires i < |bs| && hi == if FreeBehind(bs, i) then i + 2 else i + 1
    ensures Live(bs[i + 1..]) == Live(bs[hi..])
  {
    if FreeBehind(bs, i) {
      assert bs[i + 1..] == [bs[i + 1]] + bs[hi..];
      LiveJoin([bs[i + 1]], bs[hi..]);
      assert Live([bs[i + 1]]) == {};
    }
  }

  /** Giving back what was just taken restores the heap. */
  lemma TakenThenGiven(bs: seq<Block>, start: nat, end: nat, i: nat, size: nat)
    requires Good(bs, start, end) && i < |bs| && Fits(bs[i], size)
    ensures i < |Taken(bs, i, size)| && Given(Taken(bs, i, size), i) == bs
  {
    assert !bs[i].used && (i > 0 ==> bs[i - 1].used);
    assert i < |bs| - 1 ==> bs[i + 1].used;
    CutExactly(bs[i], size);
    hide Good, Tiles, Coalesced, Cut, Live, FreeBytes;
    GivenBack(bs, i, Cut(bs[i], size), Taken(bs, i, size));
  }

  lemma GivenBack(bs: seq<Block>, i: nat, mid: seq<Block>, r: seq<Block>)
    requires i < |bs| && !bs[i].used && (i > 0 ==> bs[i - 1].used) && (i + 1 < |bs| ==> bs[i + 1].used)
    requires r == Replace(bs, i, i + 1, mid) && 1 <= |mid| <= 2 && mid[0].used && mid[0].at == bs[i].at
    requires |mid| == 1 ==> mid[0].size == bs[i].size
    requires |mid| == 2 ==> !mid[1].used && mid[0].size + mid[1].size + HEADER == bs[i].size
    ensures i < |r| && Given(r, i) == bs
  {
    assert r[i] == mid[0] && (i > 0 ==> r[i - 1] == bs[i - 1]);
    assert |mid| == 2 ==> r[i + 1] == mid[1];
    assert |mid| == 1 && i + 1 < |bs| ==> r[i + 1] == bs[i + 1];
    assert Low(r, i) == i && (FreeBehind(r, i) <==> |mid| == 2);
    var s := Given(r, i);
    hide Low, FreeBehind, Given;
    RestoredRow(bs, i, mid, r);
  }

  lemma RestoredRow(bs: seq<Block>, i: nat, mid: seq<Block>, r: seq<Block>)
    requires i < |bs| && r == Replace(bs, i, i + 1, mid) && 1 <= |mid| <= 2
    ensures Replace(r, i, i + |mid|, [bs[i]]) == bs
  {
  }

  // ---- free as compiled ----

  /** What `chunk->next->size` reads after the next chunk was unlinked (:91-92): the size of the
      chunk behind it, or, behind the last one, the word at address 12. */
  function ReadInstead(bs: seq<Block>, i: nat, low: nat): nat
    requires i + 1 < |bs|
  {
    if i + 2 < |bs| then bs[i + 2].size else low
  }

  /** As `Given`, with the size that the compiled code adds. */
  function GivenWritten(bs: seq<Block>, i: nat, low: nat): seq<Block>
    requires i < |bs|
  {
    var lo, hi := Low(bs, i), if FreeBehind(bs, i) then i + 2 else i + 1;
    var before := if lo < i then bs[lo].size + HEADER else 0;
    var size := before + bs[i].size;
    Replace(bs, lo, hi,
            [Block(bs[lo].at, if FreeBehind(bs, i) then (size + ReadInstead(bs, i, low) + HEADER) % WORD else size,
                   false)])
  }

  /** The compiled `free` keeps the heap in order exactly when there is no free chunk behind, or
      the wrong size happens to be the right one. */
  lemma GivenWrittenIff(bs: seq<Block>, start: nat, end: nat, i: nat, low: nat)
    requires Good(bs, start, end) && i < |bs| && bs[i].used && low < WORD
    ensures Good(GivenWritten(bs, i, low), start, end) <==>
            (FreeBehind(bs, i) ==> ReadInstead(bs, i, low) == bs[i + 1].size)
  {
    var r, w := Given(bs, i), GivenWritten(bs, i, low);
    GivenGood(bs, start, end, i);
    SizesFit(bs, start, end, i, low);
    hide Tiles, Coalesced;
    if FreeBehind(bs, i) && ReadInstead(bs, i, low) != bs[i + 1].size {
      WrongSize(bs, start, end, i, low);
    } else {
      assert w == r;
    }
  }

  /** No size in the row reaches beyond a machine word. */
  lemma SizesFit(bs: seq<Block>, start: nat, end: nat, i: nat, low: nat)
    requires Good(bs, start, end) && i < |bs| && low < WORD
    ensures var lo := Low(bs, i);
      FreeBehind(bs, i) ==>
        && ReadInstead(bs, i, low) < WORD && bs[i + 1].size < WORD && Given(bs, i)[lo].size < WORD
        && bs[lo].at + HEADER + Given(bs, i)[lo].size == EndOf(bs[i + 1])
  {
    var lo := Low(bs, i);
    InRegion(bs, start, end, i);
    if FreeBehind(bs, i) {
      InRegion(bs, start, end, i + 1);
      if i + 2 < |bs| {
        InRegion(bs, start, end, i + 2);
      }
      InRegion(bs, start, end, lo);
    }
  }

  lemma WrongSize(bs: seq<Block>, start: nat, end: nat, i: nat, low: nat)
    requires Good(bs, start, end) && i < |bs| && bs[i].used && low < WORD
    requires FreeBehind(bs, i) && ReadInstead(bs, i, low) != bs[i + 1].size && ReadInstead(bs, i, low) < WORD
    requires Given(bs, i)[Low(bs, i)].size < WORD
    requires bs[Low(bs, i)].at + HEADER + Given(bs, i)[Low(bs, i)].size == EndOf(bs[i + 1]) && bs[i + 1].size < WORD
    ensures !Tiles(GivenWritten(bs, i, low), start, end)
  {
    var r, w, lo := Given(bs, i), GivenWritten(bs, i, low), Low(bs, i);
    assert w[lo].size != r[lo].size;
    assert w[lo].at == bs[lo].at;
    assert EndOf(w[lo]) != EndOf(bs[i + 1]);
    if i + 2 < |bs| {
      assert w[lo + 1] == bs[i + 2];
      assert EndOf(bs[i + 1]) == bs[i + 2].at;
    }
  }

  /** Three chunks, the middle one free: freeing the first one leaves a gap. */
  lemma WrittenFreeExample()
    ensures var bs := [Block(100, 10, true), Block(126, 20, false), Block(162, 30, true)];
      Good(bs, 100, 208) && !Good(GivenWritten(bs, 0, 0), 100, 208)
  {
    var bs := [Block(100, 10, true), Block(126, 20, false), Block(162, 30, true)];
    GivenWrittenIff(bs, 100, 208, 0, 0);
  }

  // ---- the list in memory ----

  /** A descriptor; 0 is the null pointer. */
  datatype Chunk = Chunk(next: nat, perv: nat, used: bool, size: nat)

  function AddressOf(bs: seq<Block>, i: int): nat {
    if 0 <= i < |bs| then bs[i].at else 0
  }

  function ChunkOf(bs: seq<Block>, i: nat): Chunk
    requires i < |bs|
  {
    Chunk(AddressOf(bs, i + 1), AddressOf(bs, i - 1), bs[i].used, bs[i].size)
  }

  ghost predicate ChunkAt(mem: map<nat, Chunk>, bs: seq<Block>, i: nat)
    requires i < |bs|
  {
    bs[i].at > 0 && bs[i].at in mem && mem[bs[i].at] == ChunkOf(bs, i)
  }

  ghost predicate AllApart(bs: seq<Block>) {
    forall i, j :: 0 <= i < j < |bs| ==> bs[i].at != bs[j].at
  }

  /** Walking `next` from `first` meets exactly these blocks, and `perv` leads back. */
  ghost predicate Linked(mem: map<nat, Chunk>, first: nat, bs: seq<Block>) {
    && first == AddressOf(bs, 0)
    && (forall i :: 0 <= i < |bs| ==> ChunkAt(mem, bs, i))
    && AllApart(bs)
  }

  lemma {:induction false} LinkedSame(mem: map<nat, Chunk>, first: nat, a: seq<Block>, b: seq<Block>, k: nat)
    requires Linked(mem, first, a) && Linked(mem, first, b) && k < |a|
    ensures k < |b| && a[k] == b[k]
    decreases k
  {
    assert ChunkAt(mem, a, k);
    if k > 0 {
      LinkedSame(mem, first, a, b, k - 1);
      assert ChunkAt(mem, a, k - 1) && ChunkAt(mem, b, k - 1);
    }
    assert k < |b| ==> ChunkAt(mem, b, k);
  }

  /** Memory determines the blocks. */
  lemma LinkedUnique(mem: map<nat, Chunk>, first: nat, a: seq<Block>, b: seq<Block>)
    requires Linked(mem, first, a) && Linked(mem, first, b)
    ensures a == b
  {
    if |a| > 0 {
      LinkedSame(mem, first, a, b, |a| - 1);
    }
    if |b| > 0 {
      LinkedSame(mem, first, b, a, |b| - 1);
    }
    forall k | 0 <= k < |a|
      ensures a[k] == b[k]
    {
      LinkedSame(mem, first, a, b, k);
    }
  }

  /** A chunk's own fields change. */
  lemma FieldLinked(mem: map<nat, Chunk>, first: nat, bs: seq<Block>, i: nat, used: bool, size: nat)
    requires Linked(mem, first, bs) && i < |bs|
    ensures bs[i].at in mem
    ensures Linked(mem[bs[i].at := mem[bs[i].at].(used := used, size := size)], first,
                   bs[i := Block(bs[i].at, size, used)])
  {
    assert ChunkAt(mem, bs, i);
    var mem', bs' := mem[bs[i].at := mem[bs[i].at].(used := used, size := size)], bs[i := Block(bs[i].at, size, used)];
    forall k | 0 <= k < |bs|
      ensures ChunkAt(mem', bs', k)
    {
      assert ChunkAt(mem, bs, k);
    }
  }

  /** A new chunk `t` is linked in behind `res` (:52-58). */
  function LinkIn(mem: map<nat, Chunk>, res: nat, t: nat, used: bool, size: nat): (r: map<nat, Chunk>)
    requires res in mem && (mem[res].next != 0 ==> mem[res].next in mem)
  {
    var next := mem[res].next;
    var a := mem[t := Chunk(next, res, used, size)];
    var b := if next != 0 then a[next := a[next].(perv := t)] else a;
    b[res := b[res].(next := t)]
  }

  lemma LinkedAt(mem: map<nat, Chunk>, first: nat, bs: seq<Block>, i: nat)
    requires Linked(mem, first, bs) && i < |bs|
    ensures bs[i].at > 0 && bs[i].at in mem && mem[bs[i].at] == ChunkOf(bs, i)
  {
    assert ChunkAt(mem, bs, i);
  }

  lemma LinkedApart(mem: map<nat, Chunk>, first: nat, bs: seq<Block>, i: nat, j: nat)
    requires Linked(mem, first, bs) && i < |bs| && j < |bs|
    ensures bs[i].at == bs[j].at <==> i == j
  {
  }

  lemma ReplaceAt(bs: seq<Block>, lo: nat, hi: nat, mid: seq<Block>, k: int)
    requires lo <= hi <= |bs|
    ensures |Replace(bs, lo, hi, mid)| == |bs| - (hi - lo) + |mid|
    ensures AddressOf(Replace(bs, lo, hi, mid), k) ==
            if k < lo then AddressOf(bs, k)
            else if k < lo + |mid| then mid[k - lo].at
            else AddressOf(bs, k - |mid| + (hi - lo))
    ensures 0 <= k < |Replace(bs, lo, hi, mid)| ==>
      Replace(bs, lo, hi, mid)[k] ==
          if k < lo then bs[k] else if k < lo + |mid| then mid[k - lo] else bs[k - |mid| + (hi - lo)]
  {
  }

  lemma LinkInSees(mem: map<nat, Chunk>, res: nat, t: nat, used: bool, size: nat, a: nat)
    requires res in mem && (mem[res].next != 0 ==> mem[res].next in mem)
    requires res != t && mem[res].next != t && mem[res].next != res && (a == t || a in mem) && a != 0
    ensures a in LinkIn(mem, res, t, used, size)
    ensures LinkIn(mem, res, t, used, size)[a] ==
            if a == res then mem[res].(next := t)
            else if a == t then Chunk(mem[res].next, res, used, size)
            else if a == mem[res].next then mem[a].(perv := t)
            else mem[a]
  {
  }

  lemma LinkInNew(mem: map<nat, Chunk>, first: nat, bs: seq<Block>, i: nat, b: Block)
    requires Linked(mem, first, bs) && i < |bs| && b.at > 0
    requires forall j :: 0 <= j < |bs| ==> bs[j].at != b.at
    ensures bs[i].at in mem && (mem[bs[i].at].next != 0 ==> mem[bs[i].at].next in mem)
    ensures var r, mem' := Replace(bs, i + 1, i + 1, [b]), LinkIn(mem, bs[i].at, b.at, b.used, b.size);
      i + 1 < |r| && ChunkAt(mem', r, i + 1)
  {
    hide Linked, Replace, LinkIn;
    ReplaceAt(bs, i + 1, i + 1, [b], i);
    ReplaceAt(bs, i + 1, i + 1, [b], i + 1);
    ReplaceAt(bs, i + 1, i + 1, [b], i + 2);
    LinkedAt(mem, first, bs, i);
    if i + 1 < |bs| {
      LinkedAt(mem, first, bs, i + 1);
      LinkedApart(mem, first, bs, i, i + 1);
    }
    LinkInSees(mem, bs[i].at, b.at, b.used, b.size, b.at);
  }

  lemma LinkInOld(mem: map<nat, Chunk>, first: nat, bs: seq<Block>, i: nat, b: Block, j: nat)
    requires Linked(mem, first, bs) && i < |bs| && j < |bs| && b.at > 0
    requires forall l :: 0 <= l < |bs| ==> bs[l].at != b.at
    ensures bs[i].at in mem && (mem[bs[i].at].next != 0 ==> mem[bs[i].at].next in mem)
    ensures var r, mem' := Replace(bs, i + 1, i + 1, [b]), LinkIn(mem, bs[i].at, b.at, b.used, b.size);
      var k := if j <= i then j else j + 1;
      k < |r| && ChunkAt(mem', r, k)
  {
    hide Linked, Replace, LinkIn, AddressOf;
    InsertedBetween(bs, i, b, j);
    AddressIs(bs, i + 1);
    LinkedAt(mem, first, bs, i);
    LinkedAt(mem, first, bs, j);
    LinkedApart(mem, first, bs, i, j);
    if i + 1 < |bs| {
      LinkedAt(mem, first, bs, i + 1);
      LinkedApart(mem, first, bs, i, i + 1);
      LinkedApart(mem, first, bs, i + 1, j);
    }
    LinkInSees(mem, bs[i].at, b.at, b.used, b.size, bs[j].at);
  }

  lemma AddressIs(bs: seq<Block>, k: int)
    ensures AddressOf(bs, k) == if 0 <= k < |bs| then bs[k].at else 0
  {
  }

  /** An old block's neighbours once `b` stands behind block `i`. */
  lemma InsertedBetween(bs: seq<Block>, i: nat, b: Block, j: nat)
    requires i < |bs| && j < |bs|
    ensures var r, k := Replace(bs, i + 1, i + 1, [b]), if j <= i then j else j + 1;
      && k < |r| && r[k] == bs[j]
      && AddressOf(r, k + 1) == (if j == i then b.at else AddressOf(bs, j + 1))
      && AddressOf(r, k - 1) == if j == i + 1 then b.at else AddressOf(bs, j - 1)
  {
    hide Replace;
    var k := if j <= i then j else j + 1;
    ReplaceAt(bs, i + 1, i + 1, [b], k);
    ReplaceAt(bs, i + 1, i + 1, [b], k - 1);
    ReplaceAt(bs, i + 1, i + 1, [b], k + 1);
  }

  lemma InsertLinked(mem: map<nat, Chunk>, first: nat, bs: seq<Block>, i: nat, b: Block)
    requires Linked(mem, first, bs) && i < |bs| && b.at > 0 && forall j :: 0 <= j < |bs| ==> bs[j].at != b.at
    ensures bs[i].at in mem && (mem[bs[i].at].next != 0 ==> mem[bs[i].at].next in mem)
    ensures Linked(LinkIn(mem, bs[i].at, b.at, b.used, b.size), first, Replace(bs, i + 1, i + 1, [b]))
  {
    InsertApart(mem, first, bs, i, b);
    hide LinkIn, ChunkAt, AllApart;
    var r := Replace(bs, i + 1, i + 1, [b]);
    LinkInNew(mem, first, bs, i, b);
    forall k | 0 <= k < |r|
      ensures ChunkAt(LinkIn(mem, bs[i].at, b.at, b.used, b.size), r, k)
    {
      if k != i + 1 {
        LinkInOld(mem, first, bs, i, b, if k <= i then k else k - 1);
      }
    }
  }

  lemma InsertApart(mem: map<nat, Chunk>, first: nat, bs: seq<Block>, i: nat, b: Block)
    requires Linked(mem, first, bs) && i < |bs| && forall j :: 0 <= j < |bs| ==> bs[j].at != b.at
    ensures AllApart(Replace(bs, i + 1, i + 1, [b]))
  {
    hide ChunkAt;
    var r := Replace(bs, i + 1, i + 1, [b]);
    forall k, l | 0 <= k < l < |r|
      ensures r[k].at != r[l].at
    {
      if k != i + 1 && l != i + 1 {
        LinkedApart(mem, first, bs, if k <= i then k else k - 1, if l <= i then l else l - 1);
      }
    }
  }

  /** The chunk behind `p` is linked out (:82-84, 91-94). */
  function LinkOut(mem: map<nat, Chunk>, p: nat, next: nat): (r: map<nat, Chunk>)
    requires p in mem && (next != 0 ==> next in mem)
  {
    var a := mem[p := mem[p].(next := next)];
    if next != 0 then a[next := a[next].(perv := p)] else a
  }

  lemma LinkOutBefore(mem: map<nat, Chunk>, first: nat, bs: seq<Block>, j: nat)
    requires Linked(mem, first, bs) && 0 < j < |bs|
    ensures bs[j - 1].at in mem && (j + 1 < |bs| ==> bs[j + 1].at in mem && bs[j + 1].at > 0)
    ensures var r, mem' := Replace(bs, j, j + 1, []), LinkOut(mem, bs[j - 1].at, AddressOf(bs, j + 1));
      j - 1 < |r| && ChunkAt(mem', r, j - 1)
  {
    hide Linked, Replace, LinkOut;
    ReplaceAt(bs, j, j + 1, [], j - 2);
    ReplaceAt(bs, j, j + 1, [], j - 1);
    ReplaceAt(bs, j, j + 1, [], j);
    LinkedAt(mem, first, bs, j - 1);
    if j + 1 < |bs| {
      LinkedAt(mem, first, bs, j + 1);
      LinkedApart(mem, first, bs, j + 1, j - 1);
    }
    LinkOutSees(mem, bs[j - 1].at, AddressOf(bs, j + 1), bs[j - 1].at);
  }

  lemma LinkOutOther(mem: map<nat, Chunk>, first: nat, bs: seq<Block>, j: nat, k: nat)
    requires Linked(mem, first, bs) && 0 < j < |bs| && k < |bs| - 1 && k != j - 1
    ensures bs[j - 1].at in mem && (j + 1 < |bs| ==> bs[j + 1].at in mem && bs[j + 1].at > 0)
    ensures var r, mem' := Replace(bs, j, j + 1, []), LinkOut(mem, bs[j - 1].at, AddressOf(bs, j + 1));
      k < |r| && ChunkAt(mem', r, k)
  {
    hide Linked, Replace, LinkOut;
    ReplaceAt(bs, j, j + 1, [], k - 1);
    ReplaceAt(bs, j, j + 1, [], k);
    ReplaceAt(bs, j, j + 1, [], k + 1);
    LinkedAt(mem, first, bs, j - 1);
    var l := if k < j then k else k + 1;
    LinkedAt(mem, first, bs, l);
    LinkedApart(mem, first, bs, j - 1, l);
    if j + 1 < |bs| {
      LinkedAt(mem, first, bs, j + 1);
      LinkedApart(mem, first, bs, j + 1, l);
      LinkedApart(mem, first, bs, j + 1, j - 1);
    }
    LinkOutSees(mem, bs[j - 1].at, AddressOf(bs, j + 1), bs[l].at);
  }

  lemma LinkOutSees(mem: map<nat, Chunk>, p: nat, next: nat, a: nat)
    requires p in mem && (next != 0 ==> next in mem) && a in mem && a != 0 && p != next
    ensures a in LinkOut(mem, p, next)
    ensures LinkOut(mem, p, next)[a] ==
            if a == p then mem[p].(next := next) else if a == next then mem[a].(perv := p) else mem[a]
  {
  }

  lemma DeleteLinked(mem: map<nat, Chunk>, first: nat, bs: seq<Block>, j: nat)
    requires Linked(mem, first, bs) && 0 < j < |bs|
    ensures bs[j - 1].at in mem && (j + 1 < |bs| ==> bs[j + 1].at in mem && bs[j + 1].at > 0)
    ensures Linked(LinkOut(mem, bs[j - 1].at, AddressOf(bs, j + 1)), first, Replace(bs, j, j + 1, []))
  {
    var r := Replace(bs, j, j + 1, []);
    LinkOutBefore(mem, first, bs, j);
    var mem' := LinkOut(mem, bs[j - 1].at, AddressOf(bs, j + 1));
    forall k | 0 <= k < |r|
      ensures ChunkAt(mem', r, k)
    {
      if k != j - 1 {
        LinkOutOther(mem, first, bs, j, k);
      }
    }
    hide LinkOut, ChunkAt;
    forall k, l | 0 <= k < l < |r|
      ensures r[k].at != r[l].at
    {
      LinkedApart(mem, first, bs, if k < j then k else k + 1, if l < j then l else l + 1);
    }
  }

  lemma InsideApart(bs: seq<Block>, start: nat, end: nat, i: nat, a: nat)
    requires Tiles(bs, start, end) && i < |bs| && bs[i].at < a < EndOf(bs[i])
    ensures forall j :: 0 <= j < |bs| ==> bs[j].at != a
  {
    forall j | 0 <= j < |bs|
      ensures bs[j].at != a
    {
      if j < i {
        Ascending(bs, start, end, j, i);
      } else if i < j {
        Ascending(bs, start, end, i, j);
      }
    }
  }

  /** A free block swallowed by a free one in front of it. */
  function MergedBefore(bs: seq<Block>, i: nat): seq<Block>
    requires i < |bs|
  {
    if Low(bs, i) < i then
      Replace(bs[i - 1 := Block(bs[i - 1].at, bs[i - 1].size + bs[i].size + HEADER, false)], i, i + 1, [])
    else bs
  }

  function MergedBehind(bs: seq<Block>, lo: nat, sizeFirst: bool, low: nat): seq<Block>
    requires lo < |bs|
  {
    if FreeBehind(bs, lo) then
      var size := if sizeFirst then bs[lo].size + bs[lo + 1].size + HEADER
        else (bs[lo].size + ReadInstead(bs, lo, low) + HEADER) % WORD;
      Replace(bs[lo := Block(bs[lo].at, size, false)], lo + 1, lo + 2, [])
    else bs
  }

  /** The row after the first merge, block by block. */
  lemma MergedBeforeAt(bs: seq<Block>, i: nat)
    requires i < |bs|
    ensures var a, lo := MergedBefore(bs[i := Block(bs[i].at, bs[i].size, false)], i), Low(bs, i);
      && |a| == |bs| - (i - lo)
      && (forall k :: 0 <= k < lo ==> a[k] == bs[k])
      && a[lo] == Block(bs[lo].at, (if lo < i then bs[lo].size + HEADER else 0) + bs[i].size, false)
      && (forall k :: lo < k < |a| ==> a[k] == bs[k + (i - lo)])
  {
    var b := bs[i := Block(bs[i].at, bs[i].size, false)];
    LowSame(bs, i);
    LowStep(bs, i);
    hide Low;
    var a := MergedBefore(b, i);
    if Low(bs, i) < i {
      var c := b[i - 1 := Block(b[i - 1].at, b[i - 1].size + b[i].size + HEADER, false)];
      assert a == Replace(c, i, i + 1, []);
      hide MergedBefore;
      forall k | i - 1 < k < |a|
        ensures a[k] == bs[k + 1]
      {
      }
    }
  }

  lemma LowSame(bs: seq<Block>, i: nat)
    requires i < |bs|
    ensures Low(bs[i := Block(bs[i].at, bs[i].size, false)], i) == Low(bs, i)
  {
  }

  lemma LowStep(bs: seq<Block>, i: nat)
    requires i < |bs|
    ensures Low(bs, i) == i || Low(bs, i) == i - 1
  {
  }

  lemma ReplacedBy(r: seq<Block>, bs: seq<Block>, lo: nat, hi: nat, b: Block)
    requires lo < hi <= |bs| && |r| == |bs| - (hi - lo) + 1 && r[lo] == b
    requires forall k :: 0 <= k < lo ==> r[k] == bs[k]
    requires forall k :: lo < k < |r| ==> r[k] == bs[k + (hi - lo) - 1]
    ensures r == Replace(bs, lo, hi, [b])
  {
  }

  lemma MergedBehindAt(bs: seq<Block>, i: nat, a: seq<Block>, sizeFirst: bool, low: nat)
    requires i < |bs| && a == MergedBefore(bs[i := Block(bs[i].at, bs[i].size, false)], i)
    ensures Low(bs, i) < |a|
    ensures MergedBehind(a, Low(bs, i), sizeFirst, low) == if sizeFirst then Given(bs, i) else GivenWritten(bs, i, low)
  {
    hide MergedBefore, MergedBehind, Replace, FreeBehind, ReadInstead, Low;
    MergedBeforeAt(bs, i);
    var lo, hi := Low(bs, i), if FreeBehind(bs, i) then i + 2 else i + 1;
    LowBelow(bs, i);
    BehindSame(bs, i, a, lo, low);
    BehindElements(a, lo, sizeFirst, low);
    var r := MergedBehind(a, lo, sizeFirst, low);
    ReplacedBy(r, bs, lo, hi, r[lo]);
  }

  lemma LowBelow(bs: seq<Block>, i: nat)
    requires i < |bs|
    ensures Low(bs, i) <= i && (FreeBehind(bs, i) ==> i + 1 < |bs|)
  {
  }

  /** What lies behind is the same before and after the first merge. */
  lemma BehindSame(bs: seq<Block>, i: nat, a: seq<Block>, lo: nat, low: nat)
    requires lo <= i < |bs| && |a| == |bs| - (i - lo) && forall k :: lo < k < |a| ==> a[k] == bs[k + (i - lo)]
    ensures FreeBehind(a, lo) <==> FreeBehind(bs, i)
    ensures FreeBehind(bs, i) ==>
      lo + 1 < |a| && i + 1 < |bs| && a[lo + 1] == bs[i + 1] && ReadInstead(a, lo, low) == ReadInstead(bs, i, low)
  {
    assert lo + 1 < |a| ==> a[lo + 1] == bs[lo + 1 + (i - lo)];
    assert lo + 2 < |a| ==> a[lo + 2] == bs[lo + 2 + (i - lo)];
  }

  lemma BehindElements(a: seq<Block>, lo: nat, sizeFirst: bool, low: nat)
    requires lo < |a|
    ensures var r := MergedBehind(a, lo, sizeFirst, low);
      if FreeBehind(a, lo) then
        && |r| == |a| - 1 && (forall k :: 0 <= k < lo ==> r[k] == a[k])
        && (forall k :: lo < k < |r| ==> r[k] == a[k + 1])
        && r[lo] == Block(a[lo].at, if sizeFirst then a[lo].size + a[lo + 1].size + HEADER
                                    else (a[lo].size + ReadInstead(a, lo, low) + HEADER) % WORD, false)
      else r == a
  {
  }

  /** The two merges, one after the other. */
  lemma MergedGives(bs: seq<Block>, i: nat, low: nat)
    requires i < |bs|
    ensures var a := MergedBefore(bs[i := Block(bs[i].at, bs[i].size, false)], i);
      && Low(bs, i) < |a|
      && MergedBehind(a, Low(bs, i), true, low) == Given(bs, i)
      && MergedBehind(a, Low(bs, i), false, low) == GivenWritten(bs, i, low)
  {
    hide *;
    var a := MergedBefore(bs[i := Block(bs[i].at, bs[i].size, false)], i);
    MergedBehindAt(bs, i, a, true, low);
    MergedBehindAt(bs, i, a, false, low);
  }

  // ---- the allocator ----

  lemma BlockOf(bs: seq<Block>, ptr: nat, rest: seq<nat>) returns (i: nat)
    requires rest != [] && rest[0] == ptr && forall q :: q in rest <==> q in Pointers(bs)
    ensures i < |bs| && bs[i].used && ptr == bs[i].at + HEADER
  {
    assert ptr in rest;
    i :| i < |bs| && bs[i].used && ptr == bs[i].at + HEADER;
  }

  lemma OneLess(ptrs: seq<nat>, k: nat)
    requires k < |ptrs| && forall i, j :: 0 <= i < j < |ptrs| ==> ptrs[i] != ptrs[j]
    ensures forall q :: q in ptrs[k + 1..] <==> q in ptrs[k..] && q != ptrs[k]
  {
    var rest := ptrs[k + 1..];
    assert ptrs[k..] == [ptrs[k]] + rest;
    forall q | q in rest
      ensures q != ptrs[k]
    {
      var j :| 0 <= j < |rest| && rest[j] == q;
      assert ptrs[k + 1 + j] == q;
    }
  }

  lemma UsedPointer(bs: seq<Block>, i: nat)
    requires i < |bs| && bs[i].used
    ensures bs[i].at + HEADER in Pointers(bs)
  {
  }

  lemma NothingLeft(bs: seq<Block>)
    requires Pointers(bs) == {}
    ensures forall i :: 0 <= i < |bs| ==> !bs[i].used
  {
    hide Pointers;
    forall i | 0 <= i < |bs|
      ensures !bs[i].used
    {
      if bs[i].used {
        UsedPointer(bs, i);
      }
    }
  }

  class Heap {
    var first: nat
    var mem: map<nat, Chunk>      // descriptors by address
    const sizeFirst: bool         // whether `free` adds the next chunk's size before unlinking it, as it should
    const low: nat                // what the word at address 12 holds
    ghost var blocks: seq<Block>
    ghost const start: nat
    ghost const end: nat

    ghost predicate Valid()
      reads this
    {
      low < WORD && Linked(mem, first, blocks) && (blocks == [] || Good(blocks, start, end))
    }

    /** :14-26 */
    constructor (region: nat, size: nat, sizeFirst: bool, low: nat)
      requires 0 < region && region + size <= WORD && low < WORD
      ensures Valid() && start == region && end == region + size && this.sizeFirst == sizeFirst && this.low == low
      ensures blocks == if size < HEADER then [] else [Block(region, size - HEADER, false)]
    {
      this.sizeFirst, this.low := sizeFirst, low;
      start, end := region, region + size;
      if size < HEADER {
        first, mem, blocks := 0, map[], [];
      } else {
        first, mem := region, map[region := Chunk(0, 0, false, size - HEADER)];
        blocks := [Block(region, size - HEADER, false)];
      }
    }

    /** :31-63. The first free chunk that is strictly larger is handed out, or 0 if there is none. If it
        has at least 17 bytes more than requested, what is behind the request stays free. */
    method Malloc(size: nat) returns (ptr: nat, ghost i: nat)
      requires Valid()
      modifies this
      ensures Valid()
      ensures ptr == 0 <==> forall k :: 0 <= k < |old(blocks)| ==> old(blocks)[k].used || old(blocks)[k].size <= size
      ensures ptr == 0 ==> blocks == old(blocks)
      ensures ptr != 0 ==> i < |old(blocks)| && !old(blocks)[i].used && old(blocks)[i].size > size
      ensures ptr != 0 ==> forall k :: 0 <= k < i ==> old(blocks)[k].used || old(blocks)[k].size <= size
      ensures ptr != 0 ==> ptr == old(blocks)[i].at + 16 && blocks == Taken(old(blocks), i, size)
      ensures ptr != 0 && old(blocks)[i].size >= size + 17 ==>
        && Live(blocks) == Live(old(blocks)) + {(ptr, size)}
        && Block(ptr + size, old(blocks)[i].size - size - 16, false) in blocks
        && FreeBytes(blocks) + size + 16 == FreeBytes(old(blocks))
      ensures ptr != 0 && old(blocks)[i].size < size + 17 ==>
        && Live(blocks) == Live(old(blocks)) + {(ptr, old(blocks)[i].size)}
        && FreeBytes(blocks) + old(blocks)[i].size == FreeBytes(old(blocks))
    {
      hide Linked, Good, Taken, Live, FreeBytes, FirstFit;
      i := FirstFit(blocks, size);
      WhatFits(blocks, size);
      var res := Search(size);
      if res == 0 {
        return 0, i;
      }
      TakenExactly(blocks, i, size);
      if blocks[i].size >= size + 17 {
        TakenBehind(blocks, i, size);
      }
      HandOut(res, size, i);
      ptr := res + HEADER;
    }

    /** :47-62 */
    method HandOut(res: nat, size: nat, ghost i: nat)
      requires Valid() && i < |blocks| && Fits(blocks[i], size) && res == blocks[i].at
      modifies this`mem, this`blocks
      ensures Valid() && blocks == Taken(old(blocks), i, size)
    {
      ghost var bs := blocks;
      LinkedAt(mem, first, bs, i);
      TakenGood(bs, start, end, i, size);
      if mem[res].size >= size + HEADER + 1 {
        var temp := res + HEADER + size;
        Split(res, temp, size, i);
      } else {
        FieldLinked(mem, first, bs, i, true, mem[res].size);
        mem := mem[res := mem[res].(used := true)];
        blocks := bs[i := Block(bs[i].at, bs[i].size, true)];
        assert blocks == Taken(bs, i, size);
      }
    }

    /** The search loop (:39-43). */
    method Search(size: nat) returns (res: nat)
      requires Valid()
      ensures var i := FirstFit(blocks, size);
        if i == |blocks| then res == 0 else res == blocks[i].at > 0
    {
      res := 0;
      var c := first;
      ghost var k := 0;
      while c != 0 && res == 0
        invariant k <= |blocks|
        invariant res == 0 ==> c == AddressOf(blocks, k) && forall j :: 0 <= j < k ==> !Fits(blocks[j], size)
        invariant res != 0 ==> FirstFit(blocks, size) < |blocks| && res == blocks[FirstFit(blocks, size)].at
        decreases |blocks| - k + if res == 0 then 1 else 0
      {
        LinkedAt(mem, first, blocks, k);
        if mem[c].size > size && !mem[c].used {
          res := c;
          assert FirstFit(blocks, size) == k;
        } else {
          k := k + 1;
        }
        c := mem[c].next;
      }
      if res == 0 && k < |blocks| {
        LinkedAt(mem, first, blocks, k);
      }
      if FirstFit(blocks, size) < |blocks| {
        LinkedAt(mem, first, blocks, FirstFit(blocks, size));
      }
    }

    /** A new free chunk behind the one handed out (:49-60). */
    method Split(res: nat, temp: nat, size: nat, ghost i: nat)
      requires Linked(mem, first, blocks) && Good(blocks, start, end) && i < |blocks| && res == blocks[i].at
      requires Fits(blocks[i], size) && blocks[i].size >= size + HEADER + 1 && temp == res + HEADER + size
      modifies this`mem, this`blocks
      ensures Linked(mem, first, blocks) && blocks == Taken(old(blocks), i, size)
    {
      ghost var bs, b := blocks, Block(temp, blocks[i].size - size - HEADER, false);
      LinkedAt(mem, first, bs, i);
      InsideApart(bs, start, end, i, temp);
      InsertLinked(mem, first, bs, i, b);
      var next := mem[res].next;
      mem := mem[temp := Chunk(next, res, false, mem[res].size - size - HEADER)];
      if next != 0 {
        mem := mem[next := mem[next].(perv := temp)];
      }
      mem := mem[res := mem[res].(next := temp)];
      ghost var bs1 := Replace(bs, i + 1, i + 1, [b]);
      FieldLinked(mem, first, bs1, i, true, size);
      mem := mem[res := mem[res].(used := true, size := size)];
      blocks := bs1[i := Block(bs1[i].at, size, true)];
      assert blocks == Taken(bs, i, size);
    }

    /** :74-95. The block goes back to the heap and is merged with its free neighbours; as compiled
        the size of the one behind may be wrong. */
    method Free(ptr: nat, ghost i: nat)
      requires Valid() && i < |blocks| && blocks[i].used && ptr == blocks[i].at + HEADER
      modifies this
      ensures Linked(mem, first, blocks)
      ensures blocks == if sizeFirst then Given(old(blocks), i) else GivenWritten(old(blocks), i, low)
      ensures sizeFirst ==> Live(blocks) == Live(old(blocks)) - {(ptr, old(blocks)[i].size)}
      ensures Valid() <==>
        sizeFirst || (FreeBehind(old(blocks), i) ==> ReadInstead(old(blocks), i, low) == old(blocks)[i + 1].size)
    {
      var chunk := ptr - HEADER;
      ghost var bs := blocks;
      LinkedAt(mem, first, bs, i);
      FieldLinked(mem, first, bs, i, false, bs[i].size);
      mem := mem[chunk := mem[chunk].(used := false)];
      blocks := bs[i := Block(bs[i].at, bs[i].size, false)];
      ghost var lo;
      chunk, lo := MergeBefore(chunk, i);
      MergeBehind(chunk, lo);
      MergedGives(bs, i, low);
      GivenGood(bs, start, end, i);
      GivenLive(bs, start, end, i);
      GivenWrittenIff(bs, start, end, i, low);
    }

    /** Every allocation is given back, in any order: the heap is the single chunk it began as. */
    method FreeAll(ptrs: seq<nat>)
      requires Valid() && sizeFirst && blocks != []
      requires forall q :: q in ptrs <==> q in Pointers(blocks)
      requires forall j, k :: 0 <= j < k < |ptrs| ==> ptrs[j] != ptrs[k]
      modifies this
      ensures Valid() && start + HEADER <= end && blocks == [Block(start, end - start - HEADER, false)]
    {
      var k := 0;
      while k < |ptrs|
        invariant k <= |ptrs| && Linked(mem, first, blocks) && low < WORD && Good(blocks, start, end)
        invariant forall q :: q in ptrs[k..] <==> q in Pointers(blocks)
      {
        ghost var i := BlockOf(blocks, ptrs[k], ptrs[k..]);
        GivenPointers(blocks, start, end, i);
        GivenGood(blocks, start, end, i);
        Free(ptrs[k], i);
        OneLess(ptrs, k);
        k := k + 1;
      }
      assert Pointers(blocks) == {};
      NothingLeft(blocks);
      AllFree(blocks, start, end);
    }

    /** :79-87 */
    method MergeBefore(chunk: nat, ghost i: nat) returns (c: nat, ghost lo: nat)
      requires Linked(mem, first, blocks) && i < |blocks| && chunk == blocks[i].at
      modifies this`mem, this`blocks
      ensures Linked(mem, first, blocks) && blocks == MergedBefore(old(blocks), i)
      ensures lo == Low(old(blocks), i) < |blocks| && c == blocks[lo].at
    {
      c, lo := chunk, i;
      ghost var bs := blocks;
      LinkedAt(mem, first, bs, i);
      if i > 0 {
        LinkedAt(mem, first, bs, i - 1);
        LinkedApart(mem, first, bs, i - 1, i);
      }
      var perv := mem[chunk].perv;
      if perv != 0 && !mem[perv].used {
        ghost var bs1 := bs[i - 1 := Block(bs[i - 1].at, bs[i - 1].size + bs[i].size + HEADER, false)];
        FieldLinked(mem, first, bs, i - 1, false, bs[i - 1].size + bs[i].size + HEADER);
        mem := mem[perv := mem[perv].(size := mem[perv].size + mem[chunk].size + HEADER)];
        DeleteLinked(mem, first, bs1, i);
        ghost var mem1 := mem;
        var next := mem[chunk].next;
        mem := mem[perv := mem[perv].(next := next)];
        if next != 0 {
          mem := mem[next := mem[next].(perv := perv)];
        }
        assert mem == LinkOut(mem1, perv, AddressOf(bs1, i + 1));
        blocks := Replace(bs1, i, i + 1, []);
        c, lo := perv, i - 1;
      }
    }

    /** :90-95 */
    method MergeBehind(chunk: nat, ghost lo: nat)
      requires Linked(mem, first, blocks) && lo < |blocks| && chunk == blocks[lo].at && !blocks[lo].used
      modifies this`mem, this`blocks
      ensures Linked(mem, first, blocks) && blocks == MergedBehind(old(blocks), lo, sizeFirst, low)
    {
      hide Linked, Replace;
      ghost var bs := blocks;
      LinkedAt(mem, first, bs, lo);
      if lo + 1 < |bs| {
        LinkedAt(mem, first, bs, lo + 1);
        LinkedApart(mem, first, bs, lo, lo + 1);
      }
      if lo + 2 < |bs| {
        LinkedAt(mem, first, bs, lo + 2);
        LinkedApart(mem, first, bs, lo, lo + 2);
      }
      var next := mem[chunk].next;
      if next != 0 && !mem[next].used {
        var behind := mem[next].next;
        var size := if sizeFirst then mem[chunk].size + mem[next].size + HEADER
          else (mem[chunk].size + (if behind != 0 then mem[behind].size else low) + HEADER) % WORD;
        ghost var bs1 := bs[lo := Block(bs[lo].at, size, false)];
        FieldLinked(mem, first, bs, lo, false, size);
        DeleteLinked(mem[chunk := mem[chunk].(used := false, size := size)], first, bs1, lo + 1);
        ghost var mem1 := mem[chunk := mem[chunk].(used := false, size := size)];
        mem := mem[chunk := mem[chunk].(next := behind)];
        mem := mem[chunk := mem[chunk].(size := size)];
        if behind != 0 {
          mem := mem[behind := mem[behind].(perv := chunk)];
        }
        assert mem == LinkOut(mem1, chunk, AddressOf(bs1, lo + 2));
        blocks := Replace(bs1, lo + 1, lo + 2, []);
      }
    }
  }
}
