/** Byte strings, 32-bit little-endian fields and in-place stores, as the C code uses them. */
module Bytes {

  type byte = x: int | 0 <= x < 256

  const TWO_31: int := 0x8000_0000
  const TWO_32: int := 0x1_0000_0000

  /** The value a `uint32_t` holds after `v` is stored in it. */
  function Wrap32(v: int): (r: int)
    ensures 0 <= r < TWO_32
  {
    v % TWO_32
  }

  /** The value an `int32_t` holds after `v` is stored in it. */
  function Signed32(v: int): (r: int)
    ensures -TWO_31 <= r < TWO_31
  {
    if v % TWO_32 < TWO_31 then v % TWO_32 else v % TWO_32 - TWO_32
  }

  function U32(b: seq<byte>): (v: int)
    requires |b| == 4
    ensures 0 <= v < TWO_32
  {
    b[0] as int + 256 * b[1] as int + 65536 * b[2] as int + 16777216 * b[3] as int
  }

  function S32(b: seq<byte>): (v: int)
    requires |b| == 4
  {
    Signed32(U32(b))
  }

  lemma Base256(u: int)
    requires 0 <= u < TWO_32
    ensures u == u % 256 + 256 * (u / 256 % 256) + 65536 * (u / 65536 % 256) + 16777216 * (u / 16777216)
    ensures u / 16777216 < 256
  {
    assert u / 256 == u / 256 % 256 + 256 * (u / 65536);
    assert u / 65536 == u / 65536 % 256 + 256 * (u / 16777216);
  }

  /** The four bytes of a 32-bit field; loading them gives the value back modulo 2^32. */
  function LE32(v: int): (b: seq<byte>)
    ensures |b| == 4
    ensures U32(b) == Wrap32(v)
    ensures S32(b) == Signed32(v)
  {
    var u := v % TWO_32;
    Base256(u);
    [u % 256, u / 256 % 256, u / 65536 % 256, u / 16777216]
  }

  function Zeros(n: nat): (z: seq<byte>)
    ensures |z| == n && forall i :: 0 <= i < n ==> z[i] == 0
  {
    seq(n, _ => 0)
  }

  lemma ZeroField()
    ensures U32(Zeros(4)) == 0
  {
  }

  /** `b` after `memmove(b + o, d, |d|)`. */
  function Put(b: seq<byte>, o: nat, d: seq<byte>): (r: seq<byte>)
    requires o + |d| <= |b|
    ensures |r| == |b|
    ensures r[o..o + |d|] == d
    ensures 0 < o ==> r[0] == b[0]
    ensures forall lo, hi {:trigger r[lo..hi]} ::
              0 <= lo <= hi <= |b| && (hi <= o || o + |d| <= lo) ==> r[lo..hi] == b[lo..hi]
    ensures forall lo, hi {:trigger r[lo..hi]} ::
              o <= lo <= hi <= o + |d| ==> r[lo..hi] == d[lo - o..hi - o]
  {
    seq(|b|, i requires 0 <= i < |b| => if o <= i < o + |d| then d[i - o] else b[i])
  }

  function Put32(b: seq<byte>, o: nat, v: int): (r: seq<byte>)
    requires o + 4 <= |b|
    ensures |r| == |b|
    ensures r[o..o + 4] == LE32(v)
    ensures 0 < o ==> r[0] == b[0]
    ensures forall lo, hi {:trigger r[lo..hi]} ::
              0 <= lo <= hi <= |b| && (hi <= o || o + 4 <= lo) ==> r[lo..hi] == b[lo..hi]
  {
    Put(b, o, LE32(v))
  }

  function Get32(b: seq<byte>, o: nat): (v: int)
    requires o + 4 <= |b|
    ensures 0 <= v < TWO_32
  {
    U32(b[o..o + 4])
  }

  function GetS32(b: seq<byte>, o: nat): (v: int)
    requires o + 4 <= |b|
  {
    S32(b[o..o + 4])
  }

  /** The C string that starts at the first byte of `b`: everything before the first NUL. */
  function CString(b: seq<byte>): (s: seq<byte>)
    ensures |s| <= |b| && s == b[..|s|] && 0 !in s
    ensures |s| < |b| ==> b[|s|] == 0
  {
    if b == [] || b[0] == 0 then [] else [b[0]] + CString(b[1..])
  }

  function Min(a: int, b: int): int { if a < b then a else b }

  /** What `strncpy(dst, s, n)` leaves in the n bytes of `dst`. */
  function StrNCpy(s: seq<byte>, n: nat): (r: seq<byte>)
    ensures |r| == n
  {
    if n <= |s| then s[..n] else s + Zeros(n - |s|)
  }

  /** A string copied with strncpy and closed by a NUL reads back cut to the room it had. */
  lemma {:induction false} StrNCpyRoundTrip(s: seq<byte>, n: nat)
    requires 0 !in s
    ensures CString(StrNCpy(s, n) + [0]) == s[..Min(|s|, n)]
    decreases n
  {
    var b := StrNCpy(s, n) + [0];
    if n == 0 || s == [] {
      assert b[0] == 0;
    } else {
      StrNCpyRoundTrip(s[1..], n - 1);
      assert b[0] == s[0] && s[0] in s;
      assert b[1..] == StrNCpy(s[1..], n - 1) + [0];
      assert s[..Min(|s|, n)] == [s[0]] + s[1..][..Min(|s| - 1, n - 1)];
    }
  }

  /** A slice of a prefix is the slice of the whole. */
  lemma SliceOfPrefix(b: seq<byte>, n: nat, lo: nat, hi: nat)
    requires lo <= hi <= n <= |b|
    ensures b[..n][lo..hi] == b[lo..hi]
  {
  }

  lemma SliceOfSlice(b: seq<byte>, lo: nat, hi: nat, x: nat, y: nat)
    requires lo <= hi <= |b| && x <= y <= hi - lo
    ensures b[lo..hi][x..y] == b[lo + x..lo + y]
  {
    var l, r := b[lo..hi][x..y], b[lo + x..lo + y];
    forall i | 0 <= i < y - x
      ensures l[i] == r[i]
    {
      assert l[i] == b[lo..hi][x + i];
    }
  }

  lemma PutAt(b: seq<byte>, o: nat, d: seq<byte>, k: nat)
    requires o + |d| <= |b| && k < |b|
    ensures Put(b, o, d)[k] == if o <= k < o + |d| then d[k - o] else b[k]
  {
  }

  lemma PutByIndex(b: seq<byte>, o: nat, d: seq<byte>, r: seq<byte>)
    requires o + |d| <= |b| == |r|
    requires forall i :: 0 <= i < |d| ==> r[o + i] == d[i]
    requires forall i :: 0 <= i < o || o + |d| <= i < |b| ==> r[i] == b[i]
    ensures r == Put(b, o, d)
  {
  }

  /** Storing into a part that was just stored is storing the changed part. */
  lemma PutPut(b: seq<byte>, o: nat, s: seq<byte>, x: nat, d: seq<byte>)
    requires o + |s| <= |b| && x + |d| <= |s|
    ensures Put(Put(b, o, s), o + x, d) == Put(b, o, Put(s, x, d))
  {
    hide Put;
    var b1, t := Put(b, o, s), Put(s, x, d);
    var l := Put(b1, o + x, d);
    forall k | 0 <= k < |b|
      ensures l[k] == if o <= k < o + |s| then t[k - o] else b[k]
    {
      PutAt(b1, o + x, d, k);
      PutAt(b, o, s, k);
      if o <= k < o + |s| {
        PutAt(s, x, d, k - o);
      }
    }
    PutByIndex(b, o, t, l);
  }

  /** memmove into a message buffer. */
  method Store(m: array<byte>, o: nat, d: seq<byte>)
    requires o + |d| <= m.Length
    modifies m
    ensures m[..] == Put(old(m[..]), o, d)
  {
    ghost var was := m[..];
    forall i | 0 <= i < |d| {
      m[o + i] := d[i];
    }
    PutByIndex(was, o, d, m[..]);
  }

  method Store32(m: array<byte>, o: nat, v: int)
    requires o + 4 <= m.Length
    modifies m
    ensures m[..] == Put32(old(m[..]), o, v)
  {
    Store(m, o, LE32(v));
  }
}
