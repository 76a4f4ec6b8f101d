/** Bytes, sectors and little-endian words, as the packed C structures lay them out. */
module Bytes {

  type byte = x: int | 0 <= x < 256

  const SECTOR_SIZE := 512

  type Sector = s: seq<byte> | |s| == SECTOR_SIZE witness seq(SECTOR_SIZE, i => 0)

  datatype Option<+T> = None | Some(value: T)

  function Min(a: int, b: int): int {
    if a < b then a else b
  }

  function Zeros(n: nat): (s: seq<byte>)
    ensures |s| == n
  {
    seq(n, i => 0)
  }

  /** A sector that holds `s` and zeros behind it: what a short write leaves on the disk. */
  function Padded(s: seq<byte>): (r: Sector)
    requires |s| <= SECTOR_SIZE
  {
    s + Zeros(SECTOR_SIZE - |s|)
  }

  lemma PaddedFull(s: Sector)
    ensures Padded(s) == s
  {
  }

  function U16(s: seq<byte>, at: nat): nat
    requires at + 2 <= |s|
  {
    s[at] as int + 0x100 * s[at + 1] as int
  }

  function U32(s: seq<byte>, at: nat): nat
    requires at + 4 <= |s|
  {
    U16(s, at) + 0x1_0000 * U16(s, at + 2)
  }

  function Le16(v: nat): (s: seq<byte>)
    requires v < 0x1_0000
    ensures |s| == 2 && U16(s, 0) == v
  {
    [v % 0x100, v / 0x100]
  }

  function Le32(v: nat): (s: seq<byte>)
    requires v < 0x1_0000_0000
    ensures |s| == 4 && U32(s, 0) == v
  {
    Le16(v % 0x1_0000) + Le16(v / 0x1_0000)
  }

  /** The low byte comes first. */
  lemma LittleEndian(s: seq<byte>, at: nat, v: nat)
    requires at + 4 <= |s| && v < 0x1_0000_0000
    ensures U16(s, at) == s[at] as int + 256 * s[at + 1] as int
    ensures U32(s, at) ==
            s[at] as int + 256 * s[at + 1] as int + 65536 * s[at + 2] as int + 16777216 * s[at + 3] as int
    ensures Le32(v) == [v % 256, v / 256 % 256, v / 65536 % 256, v / 16777216]
  {
    assert v % 0x1_0000 / 0x100 == v / 256 % 256;
    assert v / 0x1_0000 % 0x100 == v / 65536 % 256;
    assert v / 0x1_0000 / 0x100 == v / 16777216;
  }

  /** `s` with the bytes from `at` on replaced by `w`. */
  function Patch(s: seq<byte>, at: nat, w: seq<byte>): (r: seq<byte>)
    requires at + |w| <= |s|
    ensures |r| == |s|
    ensures forall k :: 0 <= k < |s| ==> r[k] == if at <= k < at + |w| then w[k - at] else s[k]
  {
    s[..at] + w + s[at + |w|..]
  }

  lemma PatchU32(s: seq<byte>, at: nat, v: nat, k: nat)
    requires at + 4 <= |s| && k + 4 <= |s| && v < 0x1_0000_0000
    ensures k == at ==> U32(Patch(s, at, Le32(v)), k) == v
    ensures k + 4 <= at || at + 4 <= k ==> U32(Patch(s, at, Le32(v)), k) == U32(s, k)
  {
    var w := Le32(v);
    var r := Patch(s, at, w);
    if k == at {
      assert r[k] == w[0] && r[k + 1] == w[1] && r[k + 2] == w[2] && r[k + 3] == w[3];
    }
  }

  /** Storing a word changes nothing exactly when it is there already. */
  lemma PatchSame(s: seq<byte>, at: nat, v: nat)
    requires at + 4 <= |s| && v < 0x1_0000_0000
    ensures Patch(s, at, Le32(v)) == s <==> U32(s, at) == v
  {
    PatchU32(s, at, v, at);
    if U32(s, at) == v {
      WordBytes(s, at, v);
      var w, r := Le32(v), Patch(s, at, Le32(v));
      forall k | 0 <= k < |s|
        ensures r[k] == s[k]
      {
        if at <= k < at + 4 {
          assert w[k - at] == s[k];
        }
      }
    }
  }

  lemma WordBytes(s: seq<byte>, at: nat, v: nat)
    requires at + 4 <= |s| && v < 0x1_0000_0000 && U32(s, at) == v
    ensures Le32(v)[0] == s[at] && Le32(v)[1] == s[at + 1] && Le32(v)[2] == s[at + 2] && Le32(v)[3] == s[at + 3]
  {
    assert v % 0x1_0000 == U16(s, at) && v / 0x1_0000 == U16(s, at + 2);
  }
}
