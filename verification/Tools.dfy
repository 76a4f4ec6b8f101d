/** Numbers as text (src/common/tools.c:22-58). */
module Tools {

  // the table of tools.c:43, in four pieces
  const HIGH_DOWN := "zyxwvutsrqponmlkji"
  const LOW_DOWN := "hgfedcba9876543210"
  const LOW_UP := "123456789abcdefgh"
  const HIGH_UP := "ijklmnopqrstuvwxyz"
  const TABLE := HIGH_DOWN + LOW_DOWN + LOW_UP + HIGH_UP
  const MIN_INT := -0x8000_0000
  const MAX_INT := 0x7FFF_FFFF

  function Abs(v: int): nat {
    if v < 0 then -v else v
  }

  /** C's `/` rounds towards zero, and `%` goes with it. */
  function CDiv(a: int, b: nat): int
    requires b > 0
  {
    if a < 0 then -(-a / b) else a / b
  }

  function CMod(a: int, b: nat): int
    requires b > 0
  {
    if a < 0 then -(-a % b) else a % b
  }

  lemma NatDivMod(n: nat, b: nat)
    requires b > 0
    ensures n == n / b * b + n % b && 0 <= n % b < b
    ensures n < b ==> n / b == 0 && n % b == n
    ensures n >= b ==> n / b > 0
    ensures b > 1 && n > 0 ==> n / b < n
  {
    assert n == b * (n / b) + n % b;
    Smaller(n / b, b, n);
  }

  lemma Smaller(q: int, b: nat, n: nat)
    requires b > 0 && q * b <= n < q * b + b
    ensures q >= 0 && (n >= b ==> q > 0) && (n < b ==> q == 0) && (b > 1 && n > 0 ==> q < n)
  {
    if b > 1 && q >= 1 {
      assert q * b >= q * 2;
    }
  }

  lemma DivMod(a: int, b: nat)
    requires b > 0
    ensures a == CDiv(a, b) * b + CMod(a, b)
    ensures Abs(CDiv(a, b)) == Abs(a) / b && Abs(CMod(a, b)) == Abs(a) % b < b
    ensures b > 1 && a != 0 ==> Abs(CDiv(a, b)) < Abs(a)
  {
    NatDivMod(Abs(a), b);
  }

  function DigitChar(d: nat): char
    requires d < 36
  {
    if d < 10 then '0' + d as char else 'a' + (d - 10) as char
  }

  function DigitValue(c: char): nat {
    if '0' <= c <= '9' then (c - '0') as nat else if 'a' <= c <= 'z' then (c - 'a') as nat + 10 else 0
  }

  lemma DigitIs(d: nat)
    requires d < 36
    ensures DigitChar(d) == "0123456789abcdefghijklmnopqrstuvwxyz"[d]
  {
  }

  lemma Pieces(i: nat)
    ensures |HIGH_DOWN| == |LOW_DOWN| == |HIGH_UP| == 18 && |LOW_UP| == 17
    ensures i < 18 ==>
      HIGH_DOWN[i] == DigitChar(35 - i) && LOW_DOWN[i] == DigitChar(17 - i) && HIGH_UP[i] == DigitChar(18 + i)
    ensures i < 17 ==> LOW_UP[i] == DigitChar(1 + i)
  {
  }

  /** The table mirrors the digits around its middle, so that negative remainders work. */
  lemma TableIsMirror(r: int)
    requires -36 < r < 36
    ensures |TABLE| == 71 && TABLE[35 + r] == DigitChar(Abs(r)) == "0123456789abcdefghijklmnopqrstuvwxyz"[Abs(r)]
  {
    var i := 35 + r;
    DigitIs(Abs(r));
    hide DigitChar, HIGH_DOWN, LOW_DOWN, LOW_UP, HIGH_UP;
    Pieces(if i < 18 then i else if i < 36 then i - 18 else if i < 53 then i - 36 else i - 53);
  }

  lemma DigitRoundTrip(d: nat)
    requires d < 36
    ensures DigitValue(DigitChar(d)) == d && DigitChar(d) != '-' && DigitChar(d) != '\0'
    ensures DigitChar(d) == '0' <==> d == 0
  {
  }

  /** Digits without leading zeros. */
  function Numeral(n: nat, base: nat): string
    requires 2 <= base <= 36
  {
    NatDivMod(n, base);
    if n < base then [DigitChar(n)] else Numeral(n / base, base) + [DigitChar(n % base)]
  }

  function Parse(s: string, base: nat): nat {
    if s == "" then 0 else Parse(s[..|s| - 1], base) * base + DigitValue(s[|s| - 1])
  }

  lemma ParseSnoc(s: string, c: char, base: nat)
    ensures Parse(s + [c], base) == Parse(s, base) * base + DigitValue(c)
  {
    assert (s + [c])[..|s|] == s;
  }

  lemma {:induction false} ParseNumeral(n: nat, base: nat)
    requires 2 <= base <= 36
    ensures Parse(Numeral(n, base), base) == n
    decreases n
  {
    hide DigitChar, DigitValue, Parse;
    NatDivMod(n, base);
    DigitRoundTrip(n % base);
    if n < base {
      ParseSnoc("", DigitChar(n), base);
      ParseNone(base);
      assert "" + [DigitChar(n)] == [DigitChar(n)];
    } else {
      ParseNumeral(n / base, base);
      ParseSnoc(Numeral(n / base, base), DigitChar(n % base), base);
    }
  }

  lemma ParseNone(base: nat)
    ensures Parse("", base) * base == 0
  {
  }

  lemma {:induction false} NoLeadingZero(n: nat, base: nat)
    requires 2 <= base <= 36
    ensures Numeral(n, base) != "" && (Numeral(n, base)[0] == '0' <==> n == 0)
    ensures forall k :: 0 <= k < |Numeral(n, base)| ==> Numeral(n, base)[k] != '-' && Numeral(n, base)[k] != '\0'
    decreases n
  {
    hide DigitChar;
    NatDivMod(n, base);
    DigitRoundTrip(n % base);
    if n >= base {
      NoLeadingZero(n / base, base);
    }
  }

  /** What itoa leaves in its buffer. */
  function Text(value: int, base: int): string {
    if base < 2 || base > 36 then ""
    else (if value < 0 && base == 10 then "-" else "") + Numeral(Abs(value), base)
  }

  function ParseSigned(s: string, base: nat): int {
    if s != "" && s[0] == '-' then -(Parse(s[1..], base) as int) else Parse(s, base)
  }

  /** Reading the text gives the number back in base 10, and its absolute value in other bases;
      this includes the smallest int. */
  lemma ItoaRoundTrip(value: int, base: nat)
    requires 2 <= base <= 36
    ensures ParseSigned(Text(value, base), base) == if base == 10 then value else Abs(value)
    ensures '\0' !in Text(value, base)
  {
    var s := Numeral(Abs(value), base);
    ParseNumeral(Abs(value), base);
    NoLeadingZero(Abs(value), base);
    if value < 0 && base == 10 {
      assert Text(value, base)[1..] == s;
    } else {
      assert Text(value, base) == s;
    }
  }

  function Reversed(s: string): (r: string)
    ensures |r| == |s| && forall k :: 0 <= k < |s| ==> r[k] == s[|s| - 1 - k]
  {
    seq(|s|, k requires 0 <= k < |s| => s[|s| - 1 - k])
  }

  /** The digits still to come, in front of those already produced back to front. */
  function Digits(v: nat, done: string, base: nat): string
    requires 2 <= base <= 36
  {
    (if v == 0 && done != "" then "" else Numeral(v, base)) + Reversed(done)
  }

  lemma OneMoreDigit(v: nat, done: string, base: nat)
    requires 2 <= base <= 36 && (done != "" ==> v > 0)
    ensures Digits(v / base, done + [DigitChar(v % base)], base) == Digits(v, done, base)
  {
    hide DigitChar;
    NatDivMod(v, base);
    var c := DigitChar(v % base);
    assert Reversed(done + [c]) == [c] + Reversed(done);
  }

  /** tools.c:22-58. Writes the text and a terminator, and nothing else. */
  method Itoa(value: int, str: array<char>, base: int)
    requires MIN_INT <= value <= MAX_INT && |Text(value, base)| < str.Length
    modifies str
    ensures str[..] == Text(value, base) + "\0" + old(str[|Text(value, base)| + 1..])
  {
    ghost var text, before := Text(value, base), str[..];
    if base < 2 || base > 36 {
      str[0] := '\0';
      assert str[1..] == before[1..];
      return;
    }
    var ptr := 0;
    if value < 0 && base == 10 {
      str[ptr] := '-';
      ptr := ptr + 1;
    }
    var low := ptr;
    assert str[..low] + Numeral(Abs(value), base) == text;
    ghost var front := str[..low];
    ptr := Convert(value, str, base, low);
    assert str[ptr + 1..] == before[ptr + 1..] by {
      assert str[ptr + 1..] == str[ptr..][1..];
    }
    str[ptr] := '\0';
    assert str[ptr..] == "\0" + before[ptr + 1..];
    Invert(str, low, ptr);
    Assembled(str[..], low, ptr, front, Numeral(Abs(value), base), "\0", before[ptr + 1..]);
  }

  lemma Assembled(s: string, low: nat, ptr: nat, front: string, mid: string, end: string, rest: string)
    requires low <= ptr <= |s| && s[..low] == front && s[low..ptr] == mid && s[ptr..] == end + rest
    ensures s == front + mid + end + rest
  {
  }

  /** The digit loop (tools.c:38-45): last digit first. */
  method Convert(value0: int, str: array<char>, base: nat, low: nat) returns (ptr: nat)
    requires 2 <= base <= 36 && low + |Numeral(Abs(value0), base)| < str.Length
    modifies str
    ensures ptr == low + |Numeral(Abs(value0), base)|
    ensures Reversed(str[low..ptr]) == Numeral(Abs(value0), base)
    ensures str[..low] == old(str[..low]) && str[ptr..] == old(str[ptr..])
  {
    ptr := low;
    var value, again := value0, true;
    ghost var done: string := "";
    ConvertBegins(Abs(value0), base);
    hide Digits, Numeral, Reversed, TABLE, CDiv, CMod;
    while again
      invariant low <= ptr == low + |done| <= str.Length && again == (done == "" || value != 0)
      invariant Digits(Abs(value), done, base) == Numeral(Abs(value0), base)
      invariant str[low..ptr] == done
      invariant forall k :: 0 <= k < str.Length && !(low <= k < ptr) ==> str[k] == old(str[k])
      decreases Abs(value) + if again then 1 else 0
    {
      ConvertStep(value, done, base);
      str[ptr] := TABLE[35 + CMod(value, base)];
      done := done + [TABLE[35 + CMod(value, base)]];
      ptr := ptr + 1;
      value := CDiv(value, base);
      again := value != 0;
    }
    ConvertEnds(done, base);
  }

  lemma ConvertBegins(v: nat, base: nat)
    requires 2 <= base <= 36
    ensures Digits(v, "", base) == Numeral(v, base)
  {
  }

  /** One round: a digit more, and the rest of the value. */
  lemma ConvertStep(value: int, done: string, base: nat)
    requires 2 <= base <= 36 && (done != "" ==> value != 0)
    ensures -36 < CMod(value, base) < 36 && |TABLE| == 71 && |done| < |Digits(Abs(value), done, base)|
    ensures Digits(Abs(CDiv(value, base)), done + [TABLE[35 + CMod(value, base)]], base) ==
            Digits(Abs(value), done, base)
    ensures Abs(CDiv(value, base)) < Abs(value) || CDiv(value, base) == 0
  {
    DivMod(value, base);
    hide Digits, Numeral, Reversed, TABLE, CDiv, CMod, DigitChar;
    TableIsMirror(CMod(value, base));
    OneMoreDigit(Abs(value), done, base);
    DigitsGrow(Abs(value), done, base);
  }

  lemma ConvertEnds(done: string, base: nat)
    requires 2 <= base <= 36 && done != ""
    ensures Digits(0, done, base) == Reversed(done) && |Reversed(done)| == |done|
  {
  }

  lemma DigitsGrow(v: nat, done: string, base: nat)
    requires 2 <= base <= 36 && (done != "" ==> v > 0)
    ensures |done| < |Digits(v, done, base)|
  {
    NoLeadingZero(v, base);
  }

  /** The inversion loop (tools.c:49-56). */
  method Invert(str: array<char>, from: nat, to: nat)
    requires from < to <= str.Length
    modifies str
    ensures str[from..to] == Reversed(old(str[from..to]))
    ensures str[..from] == old(str[..from]) && str[to..] == old(str[to..])
  {
    var low, ptr := from, to - 1;
    while low < ptr
      invariant from <= low <= to && low + ptr == from + to - 1
      invariant forall k :: from <= k < to ==>
        str[k] == if low <= k <= ptr then old(str[k]) else old(str[from + to - 1 - k])
      invariant str[..from] == old(str[..from]) && str[to..] == old(str[to..])
    {
      var tmp := str[low];
      str[low] := str[ptr];
      low := low + 1;
      str[ptr] := tmp;
      ptr := ptr - 1;
    }
    ghost var was := old(str[from..to]);
    ghost var now, n := str[from..to], to - from;
    forall k | 0 <= k < n
      ensures now[k] == was[n - 1 - k]
    {
      assert now[k] == str[from + k] && was[n - 1 - k] == old(str[from + to - 1 - (from + k)]);
    }
    assert now == Reversed(was);
  }
}
