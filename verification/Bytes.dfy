/** Bytes, fixed-width integers and memory copies shared by the tracer and the log pipeline. */
module Bytes {

  type byte = x: int | 0 <= x < 256

  type uint32 = x: int | 0 <= x < 0x1_0000_0000

  datatype Option<+T> = None | Some(value: T)

  function Min(a: int, b: int): int { if a < b then a else b }

  /** The pieces of a stream, put together. */
  function Flatten(chunks: seq<seq<byte>>): seq<byte> {
    if chunks == [] then [] else chunks[0] + Flatten(chunks[1..])
  }

  lemma Assoc<T>(a: seq<T>, b: seq<T>, c: seq<T>)
    ensures (a + b) + c == a + (b + c)
  {
  }

  lemma CancelFront<T>(head: seq<T>, x: seq<T>, y: seq<T>)
    requires head + x == head + y
    ensures x == y
  {
    assert (head + x)[|head|..] == x && (head + y)[|head|..] == y;
  }

  lemma Rejoined<T>(s: seq<T>, k: nat)
    requires k <= |s|
    ensures s[..k] + s[k..] == s
  {
  }

  lemma SliceOfSuffix<T>(s: seq<T>, off: nat, lo: nat, hi: nat)
    requires lo <= hi && off + hi <= |s|
    ensures s[off..][lo..hi] == s[off + lo..off + hi]
  {
  }

  lemma SliceOfFront<T>(a: seq<T>, b: seq<T>, lo: nat, hi: nat)
    requires lo <= hi <= |a|
    ensures (a + b)[lo..hi] == a[lo..hi]
  {
  }

  lemma SliceOfFilled(a: array<byte>, n: nat, from: nat, to: nat)
    requires from <= to <= n <= a.Length
    ensures a[from..to] == a[..n][from..to]
    ensures to == n ==> a[from..to] == a[..n][from..]
  {
  }

  lemma SplitSlice<T>(s: seq<T>, lo: nat, mid: nat, hi: nat)
    requires lo <= mid <= hi <= |s|
    ensures s[lo..hi] == s[lo..mid] + s[mid..hi]
  {
  }

  /** Unsigned 32-bit subtraction, which wraps. */
  function Sub32(a: uint32, b: uint32): uint32 {
    if a < b then a - b + 0x1_0000_0000 else a - b
  }

  /** Network byte order, as `ntohl` reads it. */
  function BigEndian32(s: seq<byte>): uint32
    requires |s| == 4
  {
    var b: seq<int> := s;
    b[0] * 0x100_0000 + b[1] * 0x1_0000 + b[2] * 0x100 + b[3]
  }

  /** Two's complement reading of an 8-bit value (the plain `char` of x86). */
  function Signed8(b: byte): int { if b < 128 then b else b - 256 }

  function Pow2(w: nat): (p: nat)
    ensures p > 0
  {
    if w == 0 then 1 else 2 * Pow2(w - 1)
  }

  /** The bits set in either of two `w`-bit numbers. */
  function Or(x: nat, y: nat, w: nat): (r: nat)
    ensures r < Pow2(w)
  {
    if w == 0 then 0 else (if x % 2 == 1 || y % 2 == 1 then 1 else 0) + 2 * Or(x / 2, y / 2, w - 1)
  }

  lemma {:induction false} OrZero(x: nat, w: nat)
    requires x < Pow2(w)
    ensures Or(x, 0, w) == x == Or(0, x, w)
  {
    if w > 0 { OrZero(x / 2, w - 1); }
  }

  lemma {:induction false} OrOnes(x: nat, w: nat)
    requires x < Pow2(w)
    ensures Or(x, Pow2(w) - 1, w) == Pow2(w) - 1 == Or(Pow2(w) - 1, x, w)
  {
    if w > 0 {
      assert (Pow2(w) - 1) / 2 == Pow2(w - 1) - 1 && (Pow2(w) - 1) % 2 == 1;
      OrOnes(x / 2, w - 1);
    }
  }

  function OrByte(x: byte, y: byte): byte {
    assert Pow2(8) == 256 by { assert Pow2(4) == 16; }
    Or(x, y, 8)
  }

  lemma OrByteFacts(x: byte)
    ensures OrByte(x, 0) == OrByte(0, x) == x && OrByte(x, 255) == OrByte(255, x) == 255
  {
    assert Pow2(8) == 256 by { assert Pow2(4) == 16; }
    OrZero(x, 8);
    OrOnes(x, 8);
  }

  /** `|` of two words of the same size. */
  function OrBytes(x: seq<byte>, y: seq<byte>): (z: seq<byte>)
    requires |x| == |y|
    ensures |z| == |x|
  {
    seq(|x|, i requires 0 <= i < |x| => OrByte(x[i], y[i]))
  }

  function Pow256(w: nat): nat { if w == 0 then 1 else 256 * Pow256(w - 1) }

  lemma Pow256Values()
    ensures Pow256(1) == 0x100 && Pow256(2) == 0x1_0000 && Pow256(4) == 0x1_0000_0000
    ensures Pow256(8) == 0x1_0000_0000_0000_0000
  {
    assert Pow256(3) == 256 * Pow256(2) && Pow256(2) == 256 * Pow256(1) && Pow256(1) == 256 * Pow256(0);
    assert Pow256(8) == 256 * Pow256(7) && Pow256(7) == 256 * Pow256(6) && Pow256(6) == 256 * Pow256(5)
        && Pow256(5) == 256 * Pow256(4) && Pow256(4) == 256 * Pow256(3);
  }

  /** The `w` low-order bytes of `n`, least significant first, as the host stores them. */
  function LittleEndian(n: nat, w: nat): (s: seq<byte>)
    ensures |s| == w
  {
    if w == 0 then [] else [n % 256] + LittleEndian(n / 256, w - 1)
  }

  function FromLittleEndian(s: seq<byte>): (n: nat)
    ensures n < Pow256(|s|)
  {
    if s == [] then 0 else s[0] + 256 * FromLittleEndian(s[1..])
  }

  lemma {:induction false} LittleEndianRoundTrip(n: nat, w: nat)
    requires n < Pow256(w)
    ensures FromLittleEndian(LittleEndian(n, w)) == n
  {
    if w > 0 {
      LittleEndianRoundTrip(n / 256, w - 1);
      assert LittleEndian(n, w)[1..] == LittleEndian(n / 256, w - 1);
    }
  }

  lemma {:induction false} LittleEndianOfBytes(s: seq<byte>)
    ensures LittleEndian(FromLittleEndian(s), |s|) == s
  {
    if s != [] {
      LittleEndianOfBytes(s[1..]);
      var n := FromLittleEndian(s);
      assert n % 256 == s[0] && n / 256 == FromLittleEndian(s[1..]);
      assert s == [s[0]] + s[1..];
    }
  }

  /** Two's complement of `x` in `w` bytes. */
  function Wrap(x: int, w: nat): (n: nat)
    ensures n < Pow256(w)
  {
    assert Pow256(w) > 0 by { Pow256Positive(w); }
    x % Pow256(w)
  }

  lemma {:induction false} Pow256Positive(w: nat)
    ensures Pow256(w) > 0
  {
    if w > 0 { Pow256Positive(w - 1); }
  }

  /** The C string that starts a buffer: everything before the first NUL. */
  function CString(s: seq<byte>): (t: seq<byte>)
    ensures t <= s && 0 !in t
    ensures |t| < |s| ==> s[|t|] == 0
  {
    if s == [] || s[0] == 0 then [] else [s[0]] + CString(s[1..])
  }

  /** `memcpy` into a buffer: exactly the `|src|` bytes from `at` change. */
  method MemCpy(dst: array<byte>, at: nat, src: seq<byte>)
    requires at + |src| <= dst.Length
    modifies dst
    ensures dst[..] == old(dst[..at]) + src + old(dst[at + |src|..])
  {
    for i := 0 to |src|
      invariant dst[..] == old(dst[..at]) + src[..i] + old(dst[at + i..])
    {
      dst[at + i] := src[i];
    }
    assert src[..|src|] == src;
  }

  /** `memcpy` to the end of what a buffer holds so far. */
  method PutBehind(dst: array<byte>, at: nat, src: seq<byte>)
    requires at + |src| <= dst.Length
    modifies dst
    ensures dst[..at + |src|] == old(dst[..at]) + src
  {
    MemCpy(dst, at, src);
    assert dst[..at + |src|] == dst[..][..at + |src|];
  }

  /** `memmove` of the bytes [from, from + n) down to the start of the same buffer. */
  method MoveDown(buf: array<byte>, from: nat, n: nat)
    requires from + n <= buf.Length
    modifies buf
    ensures buf[..n] == old(buf[from..from + n])
    ensures buf[n..] == old(buf[n..])
  {
    for i := 0 to n
      invariant buf[..i] == old(buf[from..from + i])
      invariant buf[i..] == old(buf[i..])
    {
      assert buf[from + i] == buf[i..][from] == old(buf[from + i]);
      buf[i] := buf[from + i];
    }
  }
}
