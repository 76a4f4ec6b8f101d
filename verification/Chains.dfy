/** Cluster chains in a table `f` of entries: a linked list kept in an array. */
module Chains {
  import opened FatTable

  /** `s` is walked by following entries from `s[0]` until an end mark. */
  ghost predicate Walk(f: seq<nat>, s: seq<nat>) {
    && |f| <= END_OF_CHAIN
    && s != []
    && (forall i :: 0 <= i < |s| ==> s[i] < |f|)
    && (forall i {:trigger f[s[i]]} :: 0 <= i < |s| - 1 ==> f[s[i]] == s[i + 1])
    && f[s[|s| - 1]] >= END_OF_CHAIN
  }

  /** A walk over data clusters; clusters 0 and 1 do not exist. */
  ghost predicate Chain(f: seq<nat>, s: seq<nat>) {
    Walk(f, s) && forall i :: 0 <= i < |s| ==> s[i] >= 2
  }

  ghost predicate Distinct(s: seq<nat>) {
    forall i, j :: 0 <= i < j < |s| ==> s[i] != s[j]
  }

  ghost function Elems(s: seq<nat>): set<nat> {
    set c | c in s
  }

  ghost function Free(f: seq<nat>): set<nat> {
    set c | 2 <= c < |f| && f[c] == 0
  }

  /** A chain cannot come back to a cluster: it would never reach its end mark. */
  lemma WalkDistinct(f: seq<nat>, s: seq<nat>)
    requires Walk(f, s)
    ensures Distinct(s)
  {
    forall i, j | 0 <= i < j < |s|
      ensures s[i] != s[j]
    {
      if s[i] == s[j] {
        WalkLoops(f, s, i, j);
        assert false;
      }
    }
  }

  lemma {:induction false} WalkLoops(f: seq<nat>, s: seq<nat>, i: nat, j: nat)
    requires Walk(f, s)
    requires i < j < |s| && s[i] == s[j]
    ensures false
    decreases |s| - j
  {
    if j < |s| - 1 {
      assert s[i + 1] == f[s[i]] == f[s[j]] == s[j + 1];
      WalkLoops(f, s, i + 1, j + 1);
    }
  }

  /** The first cluster determines the chain. */
  lemma {:induction false} WalkUnique(f: seq<nat>, s: seq<nat>, t: seq<nat>)
    requires Walk(f, s) && Walk(f, t) && s[0] == t[0]
    ensures s == t
    decreases |s|
  {
    assert |s| > 1 ==> f[s[0]] == s[1];
    assert |t| > 1 ==> f[t[0]] == t[1];
    if |s| > 1 {
      WalkUnique(f, s[1..], t[1..]);
      assert s == [s[0]] + s[1..] && t == [t[0]] + t[1..];
    }
  }

  /** The entries of `s` linked in order and ended, one store after another. */
  function LinkAll(f: seq<nat>, s: seq<nat>): (r: seq<nat>)
    requires s != [] && forall i :: 0 <= i < |s| ==> s[i] < |f|
    ensures |r| == |f|
    decreases |s|
  {
    if |s| == 1 then f[s[0] := END_OF_CHAIN] else LinkAll(f[s[0] := s[1]], s[1..])
  }

  lemma {:induction false} LinkAllLast(f: seq<nat>, s: seq<nat>)
    requires s != [] && forall i :: 0 <= i < |s| ==> s[i] < |f|
    ensures LinkAll(f, s)[s[|s| - 1]] == 0x0FFF_FFF8
    decreases |s|
  {
    if |s| > 1 {
      LinkAllLast(f[s[0] := s[1]], s[1..]);
    }
  }

  /** The entries of `s` released. */
  function ZeroAll(f: seq<nat>, s: seq<nat>): (r: seq<nat>)
    requires forall i :: 0 <= i < |s| ==> s[i] < |f|
    ensures |r| == |f|
    decreases |s|
  {
    if s == [] then f else ZeroAll(f[s[0] := 0], s[1..])
  }

  /** All but the first `keep` clusters of `s` released, and the last one kept marked as the end. */
  function Truncate(f: seq<nat>, s: seq<nat>, keep: nat): (r: seq<nat>)
    requires keep <= |s| && forall i :: 0 <= i < |s| ==> s[i] < |f|
    ensures |r| == |f|
  {
    var z := ZeroAll(f, s[keep..]);
    if keep > 0 then z[s[keep - 1] := END_OF_CHAIN] else z
  }

  lemma {:induction false} LinkAllAt(f: seq<nat>, s: seq<nat>)
    requires s != [] && forall i :: 0 <= i < |s| ==> s[i] < |f|
    requires Distinct(s)
    ensures forall c :: 0 <= c < |f| && c !in s ==> LinkAll(f, s)[c] == f[c]
    ensures forall i {:trigger LinkAll(f, s)[s[i]]} :: 0 <= i < |s| - 1 ==> LinkAll(f, s)[s[i]] == s[i + 1]
    ensures LinkAll(f, s)[s[|s| - 1]] == END_OF_CHAIN
    decreases |s|
  {
    if |s| > 1 {
      var t := s[1..];
      assert s[0] !in t;
      LinkAllAt(f[s[0] := s[1]], t);
      forall i | 0 <= i < |s| - 1
        ensures LinkAll(f, s)[s[i]] == s[i + 1]
      {
        if i > 0 {
          assert s[i] == t[i - 1] && s[i + 1] == t[i];
        }
      }
    }
  }

  lemma {:induction false} ZeroAllAt(f: seq<nat>, s: seq<nat>)
    requires forall i :: 0 <= i < |s| ==> s[i] < |f|
    ensures forall c :: 0 <= c < |f| ==> ZeroAll(f, s)[c] == if c in s then 0 else f[c]
    decreases |s|
  {
    if s != [] {
      ZeroAllAt(f[s[0] := 0], s[1..]);
    }
  }

  lemma {:induction false} ElemsSize(s: seq<nat>)
    requires Distinct(s)
    ensures |Elems(s)| == |s|
    decreases |s|
  {
    if s != [] {
      ElemsSize(s[1..]);
      assert Elems(s) == {s[0]} + Elems(s[1..]);
    } else {
      assert Elems(s) == {};
    }
  }

  /** `s` are the first |s| free clusters in increasing order. */
  ghost predicate FirstFree(f: seq<nat>, s: seq<nat>) {
    && (forall i, j :: 0 <= i < j < |s| ==> s[i] < s[j])
    && (forall i :: 0 <= i < |s| ==> s[i] in Free(f))
    && (forall c :: c in Free(f) && s != [] && c <= s[|s| - 1] ==> c in s)
  }

  /** There is one list of the first n free clusters. */
  lemma {:induction false} FirstFreeUnique(f: seq<nat>, s: seq<nat>, t: seq<nat>)
    requires FirstFree(f, s) && FirstFree(f, t) && |s| == |t|
    ensures s == t
  {
    hide FirstFree;
    var n := 0;
    while n < |s|
      invariant n <= |s| && forall i :: 0 <= i < n ==> s[i] == t[i]
    {
      NextFree(f, s, t, n);
      NextFree(f, t, s, n);
      n := n + 1;
    }
  }

  lemma LastIsLargest(f: seq<nat>, s: seq<nat>, n: nat)
    requires FirstFree(f, s) && n < |s|
    ensures s[n] <= s[|s| - 1]
  {
  }

  lemma FreeIsThere(f: seq<nat>, s: seq<nat>, c: nat) returns (k: nat)
    requires FirstFree(f, s) && s != [] && c in Free(f) && c <= s[|s| - 1]
    ensures k < |s| && s[k] == c
  {
    k :| k < |s| && s[k] == c;
  }

  lemma NextFree(f: seq<nat>, s: seq<nat>, t: seq<nat>, n: nat)
    requires FirstFree(f, s) && FirstFree(f, t) && n < |s| == |t|
    requires forall i :: 0 <= i < n ==> s[i] == t[i]
    ensures t[n] <= s[n]
  {
    LastIsLargest(f, t, n);
    assert s[n] in Free(f);
    if s[n] <= t[|t| - 1] {
      var k := FreeIsThere(f, t, s[n]);
    }
  }

  /** A chain runs through no free cluster. */
  lemma ChainNotFree(f: seq<nat>, s: seq<nat>)
    requires Chain(f, s)
    ensures Elems(s) !! Free(f)
  {
    forall i | 0 <= i < |s|
      ensures f[s[i]] != 0
    {
      if i < |s| - 1 {
        assert f[s[i]] == s[i + 1];
      }
    }
  }

  lemma ChainFrame(f: seq<nat>, r: seq<nat>, s: seq<nat>)
    requires Chain(f, s) && |r| == |f|
    requires forall c :: c in s ==> r[c] == f[c]
    ensures Chain(r, s)
  {
    forall i | 0 <= i < |s|
      ensures r[s[i]] == f[s[i]]
    {
      assert s[i] in s;
    }
  }

  /** A run of free clusters hung on the end of a chain. */
  function Extend(f: seq<nat>, last: nat, add: seq<nat>): (r: seq<nat>)
    requires last < |f| && forall i :: 0 <= i < |add| ==> add[i] < |f|
    ensures |r| == |f|
  {
    LinkAll(f, [last] + add)
  }

  lemma ExtendAt(f: seq<nat>, s: seq<nat>, add: seq<nat>)
    requires Chain(f, s) && FirstFree(f, add)
    ensures forall c :: 0 <= c < |f| && c !in add && c != s[|s| - 1] ==> Extend(f, s[|s| - 1], add)[c] == f[c]
    ensures Walk(Extend(f, s[|s| - 1], add), [s[|s| - 1]] + add)
  {
    var u := [s[|s| - 1]] + add;
    ChainNotFree(f, s);
    assert s[|s| - 1] in Elems(s);
    assert Distinct(u);
    LinkAllAt(f, u);
  }

  /** Two chain pieces that share a cluster at the seam. */
  lemma JoinWalks(r: seq<nat>, s: seq<nat>, add: seq<nat>)
    requires s != [] && Walk(r, [s[|s| - 1]] + add)
    requires forall i :: 0 <= i < |s| ==> s[i] < |r|
    requires forall i {:trigger r[s[i]]} :: 0 <= i < |s| - 1 ==> r[s[i]] == s[i + 1]
    ensures Walk(r, s + add)
  {
    var u, st, k := [s[|s| - 1]] + add, s + add, |s| - 1;
    forall i | 0 <= i < |st|
      ensures st[i] < |r|
    {
      assert i >= k ==> st[i] == u[i - k];
    }
    forall i | 0 <= i < |st| - 1
      ensures r[st[i]] == st[i + 1]
    {
      if i < k {
        assert r[s[i]] == s[i + 1];
      } else {
        assert r[u[i - k]] == u[i - k + 1];
        assert st[i] == u[i - k] && st[i + 1] == u[i - k + 1];
      }
    }
    assert st[|st| - 1] == u[|u| - 1];
  }

  lemma ExtendedChain(f: seq<nat>, s: seq<nat>, add: seq<nat>)
    requires Chain(f, s) && FirstFree(f, add)
    ensures Chain(Extend(f, s[|s| - 1], add), s + add)
  {
    ExtendAt(f, s, add);
    WalkDistinct(f, s);
    ChainNotFree(f, s);
    var r := Extend(f, s[|s| - 1], add);
    forall i | 0 <= i < |s| - 1
      ensures r[s[i]] == s[i + 1]
    {
      assert s[i] in Elems(s) && f[s[i]] == s[i + 1];
      assert s[i] !in add;
    }
    JoinWalks(r, s, add);
  }

  lemma ExtendFree(f: seq<nat>, s: seq<nat>, add: seq<nat>)
    requires Chain(f, s) && FirstFree(f, add)
    ensures Free(Extend(f, s[|s| - 1], add)) == Free(f) - Elems(add)
    ensures |Free(Extend(f, s[|s| - 1], add))| == |Free(f)| - |add|
  {
    ExtendAt(f, s, add);
    ExtendedChain(f, s, add);
    var r := Extend(f, s[|s| - 1], add);
    ChainNotFree(r, s + add);
    forall c | c in add || c == s[|s| - 1]
      ensures c in Elems(s + add)
    {
    }
    ChainNotFree(f, s);
    assert s[|s| - 1] in Elems(s);
    assert Free(r) == Free(f) - Elems(add);
    assert Elems(add) <= Free(f);
    ElemsSize(add);
  }

  /** Allocation: the chain goes on with the new clusters, exactly those stop being free, and
      every other chain is what it was. */
  lemma ExtendChain(f: seq<nat>, s: seq<nat>, add: seq<nat>)
    requires Chain(f, s) && FirstFree(f, add)
    ensures Chain(Extend(f, s[|s| - 1], add), s + add)
    ensures Free(Extend(f, s[|s| - 1], add)) == Free(f) - Elems(add)
    ensures |Free(Extend(f, s[|s| - 1], add))| == |Free(f)| - |add|
    ensures forall t :: Chain(f, t) && Elems(t) !! Elems(s) ==> Chain(Extend(f, s[|s| - 1], add), t)
  {
    hide Chain, Free, Extend;
    EntriesInTable(f, s, add);
    ExtendedChain(f, s, add);
    ExtendFree(f, s, add);
    forall t | Chain(f, t) && Elems(t) !! Elems(s)
      ensures Chain(Extend(f, s[|s| - 1], add), t)
    {
      OtherChain(f, s, add, t);
    }
  }

  lemma EntriesInTable(f: seq<nat>, s: seq<nat>, add: seq<nat>)
    requires Chain(f, s) && FirstFree(f, add)
    ensures s != [] && s[|s| - 1] < |f| && forall i :: 0 <= i < |add| ==> add[i] < |f|
  {
  }

  lemma OtherChain(f: seq<nat>, s: seq<nat>, add: seq<nat>, t: seq<nat>)
    requires Chain(f, s) && FirstFree(f, add) && Chain(f, t) && Elems(t) !! Elems(s)
    ensures Chain(Extend(f, s[|s| - 1], add), t)
  {
    hide Extend;
    ExtendAt(f, s, add);
    ChainNotFree(f, t);
    assert s[|s| - 1] in Elems(s);
    assert forall c :: c in t ==> c in Elems(t);
    ChainFrame(f, Extend(f, s[|s| - 1], add), t);
  }

  lemma TruncateAt(f: seq<nat>, s: seq<nat>, keep: nat)
    requires keep <= |s| && Distinct(s) && forall i :: 0 <= i < |s| ==> s[i] < |f|
    ensures forall c :: 0 <= c < |f| ==>
      Truncate(f, s, keep)[c] ==
      if c in s[keep..] then 0 else if keep > 0 && c == s[keep - 1] then END_OF_CHAIN else f[c]
  {
    ZeroAllAt(f, s[keep..]);
    assert keep > 0 ==> s[keep - 1] !in s[keep..];
  }

  lemma TruncatedChain(f: seq<nat>, s: seq<nat>, keep: nat)
    requires Chain(f, s) && 0 < keep <= |s|
    ensures Chain(Truncate(f, s, keep), s[..keep])
  {
    WalkDistinct(f, s);
    TruncateAt(f, s, keep);
    var r := Truncate(f, s, keep);
    forall i | 0 <= i < keep - 1
      ensures r[s[i]] == s[i + 1]
    {
      assert f[s[i]] == s[i + 1];
    }
  }

  lemma TruncateFree(f: seq<nat>, s: seq<nat>, keep: nat)
    requires Chain(f, s) && keep <= |s|
    ensures Free(Truncate(f, s, keep)) == Free(f) + Elems(s[keep..])
    ensures |Free(Truncate(f, s, keep))| == |Free(f)| + (|s| - keep)
  {
    WalkDistinct(f, s);
    TruncateAt(f, s, keep);
    ChainNotFree(f, s);
    var r := Truncate(f, s, keep);
    ElemsSuffix(s, keep);
    forall c
      ensures c in Free(r) <==> c in Free(f) || c in Elems(s[keep..])
    {
      assert keep > 0 ==> s[keep - 1] in Elems(s);
    }
    assert Free(r) == Free(f) + Elems(s[keep..]);
    ElemsSize(s[keep..]);
  }

  lemma ElemsSuffix(s: seq<nat>, keep: nat)
    requires keep <= |s|
    ensures Elems(s[keep..]) <= Elems(s)
  {
  }

  /** Removal: the chain keeps its first clusters, exactly the others become free, and every
      other chain is what it was. */
  lemma TruncateChain(f: seq<nat>, s: seq<nat>, keep: nat)
    requires Chain(f, s) && keep <= |s|
    ensures keep > 0 ==> Chain(Truncate(f, s, keep), s[..keep])
    ensures Free(Truncate(f, s, keep)) == Free(f) + Elems(s[keep..])
    ensures |Free(Truncate(f, s, keep))| == |Free(f)| + (|s| - keep)
    ensures forall t :: Chain(f, t) && Elems(t) !! Elems(s) ==> Chain(Truncate(f, s, keep), t)
  {
    if keep > 0 {
      TruncatedChain(f, s, keep);
    }
    TruncateFree(f, s, keep);
    hide Chain, Truncate, Free, Elems;
    forall t | Chain(f, t) && Elems(t) !! Elems(s)
      ensures Chain(Truncate(f, s, keep), t)
    {
      TruncatedApart(f, s, keep, t);
    }
  }

  lemma TruncatedApart(f: seq<nat>, s: seq<nat>, keep: nat, t: seq<nat>)
    requires Chain(f, s) && keep <= |s| && Chain(f, t) && Elems(t) !! Elems(s)
    ensures Chain(Truncate(f, s, keep), t)
  {
    WalkDistinct(f, s);
    TruncateAt(f, s, keep);
    assert forall c :: c in t ==> c in Elems(t);
    assert forall c :: c in s[keep..] ==> c in Elems(s);
    assert keep > 0 ==> s[keep - 1] in Elems(s);
    hide Truncate;
    ChainFrame(f, Truncate(f, s, keep), t);
  }

  /** Removing what was just allocated restores the table, except that the old last cluster
      holds this code's own end mark. */
  lemma ExtendThenTruncate(f: seq<nat>, s: seq<nat>, add: seq<nat>)
    requires Chain(f, s) && FirstFree(f, add)
    ensures Truncate(Extend(f, s[|s| - 1], add), s + add, |s|) == f[s[|s| - 1] := END_OF_CHAIN]
  {
    var r := Extend(f, s[|s| - 1], add);
    ExtendedChain(f, s, add);
    WalkDistinct(r, s + add);
    var back := Truncate(r, s + add, |s|);
    forall c | 0 <= c < |f|
      ensures back[c] == f[s[|s| - 1] := END_OF_CHAIN][c]
    {
      UndoneAt(f, s, add, c);
    }
  }

  lemma UndoneAt(f: seq<nat>, s: seq<nat>, add: seq<nat>, c: nat)
    requires Chain(f, s) && FirstFree(f, add) && c < |f|
    requires Distinct(s + add)
    ensures Truncate(Extend(f, s[|s| - 1], add), s + add, |s|)[c] == f[s[|s| - 1] := END_OF_CHAIN][c]
  {
    BothInTable(f, s, add);
    LastNotAdded(s, add);
    ExtendAt(f, s, add);
    hide Chain, FirstFree, Extend, Truncate, Distinct;
    TruncateAt(Extend(f, s[|s| - 1], add), s + add, |s|);
    assert (s + add)[|s|..] == add && (s + add)[|s| - 1] == s[|s| - 1];
  }

  lemma BothInTable(f: seq<nat>, s: seq<nat>, add: seq<nat>)
    requires Chain(f, s) && FirstFree(f, add)
    ensures forall i :: 0 <= i < |s + add| ==> (s + add)[i] < |f|
    ensures forall c :: c in add ==> c in Free(f) && f[c] == 0
  {
    forall i | 0 <= i < |s + add|
      ensures (s + add)[i] < |f|
    {
      assert i >= |s| ==> (s + add)[i] == add[i - |s|] && add[i - |s|] in Free(f);
    }
  }

  lemma LastNotAdded(s: seq<nat>, add: seq<nat>)
    requires Distinct(s + add) && s != []
    ensures s[|s| - 1] !in add
  {
    assert forall k :: 0 <= k < |add| ==> (s + add)[|s| + k] == add[k];
    assert (s + add)[|s| - 1] == s[|s| - 1];
  }

  /** A loop that follows a walk has come to its cluster `k`, or past its end. */
  ghost predicate Following(f: seq<nat>, s: seq<nat>, k: nat, next: nat) {
    Walk(f, s) && k <= |s| && next == if k < |s| then s[k] else f[s[|s| - 1]]
  }

  lemma FollowOn(f: seq<nat>, s: seq<nat>, k: nat, next: nat)
    requires Following(f, s, k, next)
    ensures k <= |s| && (next < END_OF_CHAIN <==> k < |s|)
    ensures k < |s| ==> next == s[k] && next < |f| && Following(f, s, k + 1, f[next])
  {
  }
}