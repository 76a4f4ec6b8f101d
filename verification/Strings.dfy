/** C strings (src/common/str.c). A pointer to a string is a row of bytes with a zero in it. */
module Strings {
  import opened Bytes

  /** The characters before the first zero. */
  function CStr(s: seq<byte>): (r: seq<byte>)
    ensures |r| <= |s| && r == s[..|r|] && 0 !in r
    ensures 0 in s ==> |r| < |s| && s[|r|] == 0
  {
    if s == [] || s[0] == 0 then [] else [s[0]] + CStr(s[1..])
  }

  /** CStr is the only zero-free prefix that stops at a zero. */
  lemma {:induction false} CStrUnique(s: seq<byte>, n: nat)
    requires n < |s| && s[n] == 0 && 0 !in s[..n]
    ensures CStr(s) == s[..n]
  {
  }

  lemma {:induction false} CStrSuffix(s: seq<byte>, k: nat)
    requires 0 in s && k <= |CStr(s)|
    ensures 0 in s[k..] && CStr(s[k..]) == CStr(s)[k..]
  {
    var n := |CStr(s)| - k;
    assert s[k..][n] == 0 && s[k..][..n] == CStr(s)[k..];
    CStrUnique(s[k..], n);
  }

  lemma SlicePrefix(s: seq<byte>, at: nat, len: nat, n: nat)
    requires at + len <= |s| && n <= len
    ensures s[at..at + len][..n] == s[at..at + n]
  {
  }

  lemma CStrTerminated(t: seq<byte>, rest: seq<byte>)
    requires 0 !in t
    ensures CStr(t + [0] + rest) == t
  {
    var s := t + [0] + rest;
    assert s[..|t|] == t;
    CStrUnique(s, |t|);
  }

  /** str.c:26-33: zero exactly for equal strings, otherwise the sign of the first difference. */
  method Strcmp(s: seq<byte>, t: seq<byte>) returns (r: int)
    requires 0 in s && 0 in t
    ensures r == 0 <==> CStr(s) == CStr(t)
    ensures r != 0 ==>
      exists k :: 0 <= k <= |CStr(s)| && k <= |CStr(t)| && s[..k] == t[..k] && r == s[k] as int - t[k] as int
  {
    var a, b := CStr(s), CStr(t);
    var i := 0;
    while s[i] != 0 && s[i] == t[i]
      invariant i <= |a| && i <= |b| && s[..i] == t[..i]
      decreases |s| - i
    {
      i := i + 1;
    }
    r := s[i] as int - t[i] as int;
    if r == 0 {
      assert s[i] == 0 && t[i] == 0;
      assert 0 !in s[..i] && 0 !in t[..i] by {
        assert s[..i] == a[..i] && t[..i] == b[..i];
      }
      CStrUnique(s, i);
      CStrUnique(t, i);
    } else {
      assert i < |a| ==> a[i] == s[i];
      assert i < |b| ==> b[i] == t[i];
    }
  }

  /** str.c:94-106 */
  method Concat(s: seq<byte>, t: seq<byte>) returns (r: seq<byte>)
    requires 0 in s && 0 in t
    ensures r == CStr(s) + CStr(t) + [0]
    ensures CStr(r) == CStr(s) + CStr(t)
  {
    r := [];
    var i := 0;
    while s[i] != 0
      invariant i <= |CStr(s)| && r == s[..i]
      decreases |s| - i
    {
      r := r + [s[i]];
      i := i + 1;
    }
    CStrUnique(s, i);
    var j := 0;
    while t[j] != 0
      invariant j <= |CStr(t)| && r == CStr(s) + t[..j]
      decreases |t| - j
    {
      r := r + [t[j]];
      j := j + 1;
    }
    CStrUnique(t, j);
    CStrTerminated(CStr(s) + CStr(t), []);
    r := r + [0];
    assert r == CStr(s) + CStr(t) + [0] + [];
  }

  // ---- tokens ----

  /** The number of leading bytes of `s` that are delimiters (or, for `inside` = false, that are not). */
  function Span(s: seq<byte>, delim: seq<byte>, inside: bool): (n: nat)
    ensures n <= |s|
    ensures forall k :: 0 <= k < n ==> (s[k] in delim) == inside
    ensures n < |s| ==> (s[n] in delim) != inside
  {
    if s == [] || (s[0] in delim) != inside then 0 else 1 + Span(s[1..], delim, inside)
  }

  lemma SpanParts(s: seq<byte>, delim: seq<byte>, inside: bool)
    ensures var n := Span(s, delim, inside);
      n <= |s| && (forall k :: 0 <= k < n ==> (s[k] in delim) == inside) && (n < |s| ==> (s[n] in delim) != inside)
  {
  }

  lemma CStrAt(t: seq<byte>, at: nat)
    requires at < |t| && 0 in t[at..]
    ensures var s := CStr(t[at..]); at + |s| < |t| && s == t[at..at + |s|] && t[at + |s|] == 0 && 0 !in s
  {
  }

  function Skip(s: seq<byte>, delim: seq<byte>): (r: seq<byte>)
    ensures |r| <= |s| && (r != [] ==> r[0] !in delim && Span(r, delim, false) > 0)
  {
    s[Span(s, delim, true)..]
  }

  /** The maximal non-empty pieces of `s` that are free of delimiters, in order. */
  function Tokens(s: seq<byte>, delim: seq<byte>): (r: seq<seq<byte>>)
    decreases |s|
  {
    var t := Skip(s, delim);
    if t == [] then []
    else
      var n := Span(t, delim, false);
      [t[..n]] + Tokens(t[n..], delim)
  }

  lemma TokensUnfold(s: seq<byte>, delim: seq<byte>)
    ensures var t := Skip(s, delim);
      Tokens(s, delim) ==
          if t == [] then [] else [t[..Span(t, delim, false)]] + Tokens(t[Span(t, delim, false)..], delim)
  {
  }

  lemma {:induction false} TokensAreClean(s: seq<byte>, delim: seq<byte>)
    ensures forall k :: 0 <= k < |Tokens(s, delim)| ==>
      Tokens(s, delim)[k] != [] && forall c :: c in Tokens(s, delim)[k] ==> c !in delim && c in s
    decreases |s|
  {
    var t := Skip(s, delim);
    if t != [] {
      var n := Span(t, delim, false);
      TokensAreClean(t[n..], delim);
      forall k | 0 <= k < |Tokens(s, delim)|
        ensures Tokens(s, delim)[k] != [] && forall c :: c in Tokens(s, delim)[k] ==> c !in delim && c in s
      {
        if k > 0 {
          assert Tokens(s, delim)[k] == Tokens(t[n..], delim)[k - 1];
        }
      }
    }
  }

  /** A delimiter in front does not matter. */
  lemma TokensSkip(s: seq<byte>, delim: seq<byte>)
    requires s != [] && s[0] in delim
    ensures Tokens(s, delim) == Tokens(s[1..], delim)
  {
    assert Skip(s, delim) == Skip(s[1..], delim);
  }

  /** At most the byte in front of `next` differs, a delimiter that became a zero. */
  ghost predicate OneCut(before: seq<byte>, after: seq<byte>, next: nat, delim: seq<byte>) {
    after == before ||
    (0 < next <= |before| && before[next - 1] in delim && after == before[next - 1 := 0])
  }

  /** strtok's static cursor, and the string it points into. */
  class Tokenizer {
    var text: array<byte>
    var next: nat

    constructor ()
      ensures fresh(text) && Valid() && Ahead() == []
    {
      text := new byte[1](i => 0);
      next := 0;
      new;
      assert text[0] == 0;
      CStrUnique(text[0..], 0);
    }

    ghost predicate Valid()
      reads this, text
    {
      next < text.Length && 0 in text[next..]
    }

    /** What the cursor still has before it. */
    ghost function Ahead(): seq<byte>
      requires Valid()
      reads this, text
    {
      CStr(text[next..])
    }

    ghost function Rest(delim: seq<byte>): seq<seq<byte>>
      requires Valid()
      reads this, text
    {
      Tokens(Ahead(), delim)
    }

    /** str.c:59-88 with a string: start over on it. */
    method Start(str: array<byte>)
      requires 0 in str[..]
      modifies this
      ensures Valid() && text == str && next == 0
      ensures Ahead() == CStr(str[..])
    {
      text, next := str, 0;
      assert str[0..] == str[..];
    }

    /** str.c:59-88 with NULL: the next token, as its index in `text`. At most one byte of the
        text changes: the delimiter behind the token becomes its end. */
    method Strtok(delim: seq<byte>) returns (tok: Option<nat>)
      requires Valid() && 0 !in delim
      modifies this, text
      ensures Valid() && text == old(text) && old(next) <= next
      ensures tok == None <==> old(Rest(delim)) == []
      ensures tok == None ==> Rest(delim) == [] && text[..] == old(text[..])
      ensures tok.Some? ==>
        && old(next) <= tok.value < next
        && Rest(delim) == old(Rest(delim))[1..]
        && CStr(text[tok.value..]) == old(Rest(delim))[0]
        && tok.value + |CStr(text[tok.value..])| <= next
        && tok.value + |CStr(text[tok.value..])| < text.Length && text[tok.value + |CStr(text[tok.value..])|] == 0
      ensures OneCut(old(text[..]), text[..], next, delim)
    {
      hide Tokens, Span, CStr;
      ghost var s, t0 := Ahead(), text[..];
      TokensUnfold(s, delim);
      Scan(delim, true, s);
      assert text[..] == t0;
      if text[next] == 0 {
        TokensUnfold(Ahead(), delim);
        return None;
      }
      assert Ahead() == Skip(s, delim);
      var start := TakeToken(delim);
      tok := Some(start);
    }

    /** str.c:77-87: from the first character of a token. */
    method TakeToken(delim: seq<byte>) returns (start: nat)
      requires Valid() && Ahead() != [] && Ahead()[0] !in delim
      modifies this`next, text
      ensures Valid() && start == old(next) && start + |CStr(text[start..])| <= next
      ensures start + |CStr(text[start..])| < text.Length && text[start + |CStr(text[start..])|] == 0
      ensures var t, n := old(Ahead()), Span(old(Ahead()), delim, false);
        && 0 < n && start + n <= next <= start + n + 1
        && CStr(text[start..]) == t[..n] && text[start + n] == 0
        && Rest(delim) == Tokens(t[n..], delim)
      ensures OneCut(old(text[..]), text[..], next, delim)
    {
      hide Tokens, CStr;
      start := next;
      ghost var t := Ahead();
      ghost var n := Span(t, delim, false);
      assert t == text[..][start..start + |t|] by {
        assert text[start..][..|t|] == text[..][start..start + |t|];
      }
      SlicePrefix(text[..], start, |t|, n);
      Scan(delim, false, t);
      EndToken(start, delim, t[..n], t[n..]);
    }

    /** A delimiter behind the token becomes its end (str.c:82-85). */
    method EndToken(start: nat, delim: seq<byte>, ghost first: seq<byte>, ghost others: seq<byte>)
      requires Valid() && others == Ahead() && (others == [] || others[0] in delim)
      requires start + |first| == next && text[start..next] == first && 0 !in first
      modifies this`next, text
      ensures Valid() && old(next) <= next <= old(next) + 1
      ensures next == old(next) ==> text[..] == old(text[..])
      ensures next != old(next) ==> text[..] == old(text[..])[old(next) := 0] && old(text[next]) in delim
      ensures text[start + |first|] == 0 && CStr(text[start..]) == first
      ensures Rest(delim) == Tokens(others, delim)
    {
      hide CStr, Tokens, Span;
      CStrAt(text[..], next);
      assert text[..][next..] == text[next..];
      if text[next] != 0 {
        Cut(delim, others);
      }
      assert text[start..start + |first|] == first;
      TokenText(start, |first|);
    }

    lemma TokenText(start: nat, n: nat)
      requires start + n < text.Length && text[start + n] == 0 && 0 !in text[start..start + n]
      ensures CStr(text[start..]) == text[start..start + n]
    {
      assert text[start..][..n] == text[start..start + n];
      CStrUnique(text[start..], n);
    }

    /** One of the two scanning loops (str.c:70-71, 79-80): moves over the leading run. */
    method Scan(delim: seq<byte>, inside: bool, ghost s: seq<byte>)
      requires Valid() && s == Ahead()
      modifies this`next
      ensures next == old(next) + Span(s, delim, inside) && next < text.Length
      ensures Valid() && (text[next] == 0 <==> Span(s, delim, inside) == |s|)
      ensures Ahead() == s[Span(s, delim, inside)..]
    {
      hide CStr, Span;
      ghost var n, t, n0 := Span(s, delim, inside), text[..], next;
      SpanParts(s, delim, inside);
      assert text[n0..] == t[n0..];
      CStrAt(t, n0);
      while text[next] != 0 && (text[next] in delim) == inside
        invariant n0 <= next <= n0 + n && n0 + |s| < text.Length && text[..] == t
        decreases text.Length - next
      {
        assert text[next] == s[next - n0];
        next := next + 1;
      }
      assert next == n0 + n;
      assert n < |s| ==> text[next] == s[n] && s[n] in s;
      assert text[next..] == t[n0..][n..];
      CStrSuffix(t[n0..], n);
    }

    /** The delimiter behind a token becomes its end (str.c:82-85). */
    method Cut(delim: seq<byte>, ghost s: seq<byte>)
      requires Valid() && s == Ahead() && s != [] && s[0] in delim
      modifies this`next, text
      ensures Valid() && next == old(next) + 1
      ensures text[..] == old(text[..])[old(next) := 0]
      ensures Rest(delim) == Tokens(s, delim)
    {
      assert s == text[next..next + |s|] && text[next + |s|] == 0;
      text[next] := 0;
      next := next + 1;
      assert text[next..][..|s| - 1] == s[1..];
      CStrUnique(text[next..], |s| - 1);
      TokensSkip(s, delim);
    }
  }

  /** `toks[k]` can be read at index `starts[k]`, below `limit`. */
  ghost predicate Spelled(text: seq<byte>, starts: seq<nat>, toks: seq<seq<byte>>, limit: nat) {
    |starts| == |toks| && forall k :: 0 <= k < |starts| ==>
      && starts[k] + |toks[k]| <= limit && starts[k] + |toks[k]| < |text|
      && text[starts[k] + |toks[k]|] == 0 && CStr(text[starts[k]..]) == toks[k]
  }

  /** Only delimiters were overwritten, by zeros. */
  ghost predicate OnlyCuts(before: seq<byte>, after: seq<byte>, delim: seq<byte>) {
    |after| == |before| &&
    forall k :: 0 <= k < |before| && after[k] != before[k] ==> before[k] in delim && after[k] == 0
  }

  /** A later cut leaves earlier tokens alone. */
  lemma CutKeepsTokens(before: seq<byte>, after: seq<byte>, from: nat, next: nat, delim: seq<byte>,
                       starts: seq<nat>, toks: seq<seq<byte>>)
    requires OneCut(before, after, next, delim) && from < next && 0 !in delim
    requires Spelled(before, starts, toks, from)
    ensures Spelled(after, starts, toks, from)
  {
    forall k | 0 <= k < |starts|
      ensures after[starts[k] + |toks[k]|] == 0 && CStr(after[starts[k]..]) == toks[k]
    {
      var a, n := starts[k], |toks[k]|;
      assert before[a + n] == 0;
      assert before[a..][..n] == toks[k];
      if after != before {
        assert next - 1 != a + n;
      }
      assert after[a..][..n] == toks[k];
      CStrUnique(after[a..], n);
    }
  }

  lemma OneMoreToken(t0: seq<byte>, t1: seq<byte>, from: nat, next: nat, delim: seq<byte>,
                     starts: seq<nat>, all: seq<seq<byte>>, start: nat)
    requires OneCut(t0, t1, next, delim) && from < next && 0 !in delim && |t0| == |t1|
    requires |starts| < |all| && Spelled(t0, starts, all[..|starts|], from)
    requires start < |t1| && CStr(t1[start..]) == all[|starts|..][0]
    requires start + |CStr(t1[start..])| <= next && start + |CStr(t1[start..])| < |t1|
    requires t1[start + |CStr(t1[start..])|] == 0
    ensures Spelled(t1, starts + [start], all[..|starts + [start]|], next)
    ensures all[|starts|..][1..] == all[|starts + [start]|..]
  {
    CutKeepsTokens(t0, t1, from, next, delim, starts, all[..|starts|]);
  }

  lemma CutsCompose(t: seq<byte>, t0: seq<byte>, t1: seq<byte>, next: nat, delim: seq<byte>)
    requires OnlyCuts(t, t0, delim) && OneCut(t0, t1, next, delim) && 0 !in delim
    ensures OnlyCuts(t, t1, delim)
  {
  }

  /** The loop `strtok(s, d)`, `strtok(NULL, d)`, ... until NULL: it ends, yields exactly the
      tokens of the original string in order, and all of them can still be read when it is done. */
  method AllTokens(tk: Tokenizer, str: array<byte>, delim: seq<byte>) returns (starts: seq<nat>)
    requires 0 in str[..] && 0 !in delim
    modifies tk, str
    ensures Spelled(str[..], starts, Tokens(CStr(old(str[..])), delim), str.Length)
    ensures OnlyCuts(old(str[..]), str[..], delim)
  {
    tk.Start(str);
    starts := [];
    ghost var before := str[..];
    ghost var all := Tokens(CStr(before), delim);
    var more := true;
    assert tk.Rest(delim) == all[|starts|..];
    assert Spelled(before, starts, all[..|starts|], 0) && OnlyCuts(before, before, delim);
    hide Tokens, CStr, Tokenizer.Rest, Spelled, OnlyCuts, OneCut;
    while more
      invariant tk.Valid() && tk.text == str && |starts| <= |all|
      invariant OnlyCuts(before, str[..], delim)
      invariant Spelled(str[..], starts, all[..|starts|], tk.next)
      invariant tk.Rest(delim) == all[|starts|..]
      invariant !more ==> tk.Rest(delim) == []
      decreases |all| - |starts| + if more then 1 else 0
    {
      ghost var t0, n0 := str[..], tk.next;
      var tok := tk.Strtok(delim);
      more := tok.Some?;
      if more {
        OneMoreToken(t0, str[..], n0, tk.next, delim, starts, all, tok.value);
        CutsCompose(before, t0, str[..], tk.next, delim);
        starts := starts + [tok.value];
      } else {
        SpelledWithin(str[..], starts, all[..|starts|], n0, tk.next);
      }
    }
    assert all[..|starts|] == all;
    SpelledWithin(str[..], starts, all, tk.next, str.Length);
  }

  lemma SpelledWithin(t: seq<byte>, starts: seq<nat>, toks: seq<seq<byte>>, limit: nat, more: nat)
    requires Spelled(t, starts, toks, limit) && limit <= more
    ensures Spelled(t, starts, toks, more)
  {
  }
}
