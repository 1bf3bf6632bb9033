/** Log records and their 32-byte frozen form (fmt.c on a little-endian host). */
module Records {
  import opened Bytes

  const HEADER := 32   // sizeof(logentry_frozen_t)

  /** `logentry_frozen_t`; `pad` is the padding the compiler is told about but nothing sets. */
  datatype Header = Header(tid: nat, pid: nat, hi: nat, lo: nat, sc: int, rv: int, nm: byte, argLen: int, strLen: int,
                           pad: seq<byte>)

  predicate IsShort(x: int) { -0x8000 <= x < 0x8000 }

  predicate IsInt32(x: int) { -0x8000_0000 <= x < 0x8000_0000 }

  /** Headers as LOGBIN makes them. */
  predicate WfHeader(h: Header) {
    && h.tid < 0x1_0000_0000_0000_0000 && h.pid < 0x1_0000_0000 && h.hi < 0x1_0000_0000 && h.lo < 0x1_0000_0000
    && IsShort(h.sc) && IsShort(h.rv) && 0 <= h.argLen <= 3 && 0 <= h.strLen < 0x8000 && |h.pad| == 4
  }

  /** Two's complement reading of `w` little-endian bytes. */
  function SignedLittleEndian(s: seq<byte>): int {
    var n := FromLittleEndian(s);
    if 2 * n < Pow256(|s|) then n else n - Pow256(|s|)
  }

  function EncodeHeader(h: Header): (s: seq<byte>)
    ensures |s| == 28 + |h.pad|
  {
    LittleEndian(h.tid, 8) + LittleEndian(h.pid, 4) + LittleEndian(h.hi, 4) + LittleEndian(h.lo, 4)
    + LittleEndian(Wrap(h.sc, 2), 2) + LittleEndian(Wrap(h.rv, 2), 2) + [h.nm]
    + LittleEndian(Wrap(h.argLen, 1), 1) + LittleEndian(Wrap(h.strLen, 2), 2) + h.pad
  }

  function DecodeHeader(s: seq<byte>): Header
    requires |s| == HEADER
  {
    Header(FromLittleEndian(s[0..8]), FromLittleEndian(s[8..12]), FromLittleEndian(s[12..16]), FromLittleEndian(s[16..20]),
           SignedLittleEndian(s[20..22]), SignedLittleEndian(s[22..24]), s[24],
           SignedLittleEndian(s[25..26]), SignedLittleEndian(s[26..28]), s[28..32])
  }

  lemma SignedRoundTrip(x: int, w: nat)
    requires 0 <= 2 * x + Pow256(w) && 2 * x < Pow256(w)
    ensures SignedLittleEndian(LittleEndian(Wrap(x, w), w)) == x
  {
    LittleEndianRoundTrip(Wrap(x, w), w);
    if x < 0 {
      ModNegative(x, Pow256(w));
    } else {
      ModSmall(x, Pow256(w));
    }
  }

  lemma ModSmall(x: int, p: int)
    requires 0 <= x < p
    ensures x % p == x
  {
  }

  lemma ModNegative(x: int, p: int)
    requires 0 < p && -p <= x < 0
    ensures x % p == x + p
  {
    var q := x / p;
    assert x == q * p + x % p;
    assert q < 0 ==> q * p <= -p;
    assert q < -1 ==> q * p <= -2 * p;
    assert q >= 0 ==> q * p >= 0;
  }

  /** The header survives the trip through its 32 bytes. */
  lemma HeaderRoundTrip(h: Header)
    requires WfHeader(h)
    ensures DecodeHeader(EncodeHeader(h)) == h
  {
    Pow256Values();
    var s := EncodeHeader(h);
    assert s[0..8] == LittleEndian(h.tid, 8);
    assert s[8..12] == LittleEndian(h.pid, 4);
    assert s[12..16] == LittleEndian(h.hi, 4);
    assert s[16..20] == LittleEndian(h.lo, 4);
    assert s[20..22] == LittleEndian(Wrap(h.sc, 2), 2);
    assert s[22..24] == LittleEndian(Wrap(h.rv, 2), 2);
    assert s[25..26] == LittleEndian(Wrap(h.argLen, 1), 1);
    assert s[26..28] == LittleEndian(Wrap(h.strLen, 2), 2);
    assert s[28..32] == h.pad;
    LittleEndianRoundTrip(h.tid, 8);
    LittleEndianRoundTrip(h.pid, 4);
    LittleEndianRoundTrip(h.hi, 4);
    LittleEndianRoundTrip(h.lo, 4);
    SignedRoundTrip(h.sc, 2);
    SignedRoundTrip(h.rv, 2);
    SignedRoundTrip(h.argLen, 1);
    SignedRoundTrip(h.strLen, 2);
  }

  /** Where each field is in the 32 bytes, and how wide; signed fields in two's complement. */
  lemma HeaderLayout(h: Header)
    requires WfHeader(h)
    ensures var s := EncodeHeader(h);
            && |s| == 32 && s[0..8] == LittleEndian(h.tid, 8) && s[8..12] == LittleEndian(h.pid, 4)
            && s[12..16] == LittleEndian(h.hi, 4) && s[16..20] == LittleEndian(h.lo, 4)
            && s[24] == h.nm && s[25] == h.argLen && s[28..32] == h.pad
  {
    var s := EncodeHeader(h);
    Pow256Values();
    assert s[25..26] == LittleEndian(Wrap(h.argLen, 1), 1);
    ModSmall(h.argLen, 256);
    LowByteFirst(h.argLen, 1);
  }

  lemma ShortFields(h: Header)
    requires WfHeader(h)
    ensures var s := EncodeHeader(h);
            && s[20] == h.sc % 256 && s[21] == h.sc / 256 % 256 && s[22] == h.rv % 256 && s[23] == h.rv / 256 % 256
            && s[26] == h.strLen % 256 && s[27] == h.strLen / 256
  {
    var s := EncodeHeader(h);
    assert s[20..22] == LittleEndian(Wrap(h.sc, 2), 2);
    assert s[22..24] == LittleEndian(Wrap(h.rv, 2), 2);
    assert s[26..28] == LittleEndian(Wrap(h.strLen, 2), 2);
    ShortBytes(h.sc);
    ShortBytes(h.rv);
    ShortBytes(h.strLen);
  }

  /** The least significant byte comes first. */
  lemma LowByteFirst(n: nat, w: nat)
    requires w > 0
    ensures LittleEndian(n, w)[0] == n % 256 && LittleEndian(n, w)[1..] == LittleEndian(n / 256, w - 1)
  {
  }

  lemma ShortBytes(x: int)
    requires IsShort(x)
    ensures LittleEndian(Wrap(x, 2), 2) == [x % 256, x / 256 % 256]
  {
    Pow256Values();
    var n := Wrap(x, 2);
    LowByteFirst(n, 2);
    LowByteFirst(n / 256, 1);
    if x >= 0 { ModSmall(x, 0x1_0000); } else { ModNegative(x, 0x1_0000); }
  }

  /** Arguments follow one another, four bytes each. */
  lemma {:induction false} ArgAt(args: seq<int>, i: nat)
    requires i < |args|
    ensures EncodeArgs(args)[4 * i..4 * i + 4] == LittleEndian(Wrap(args[i], 4), 4)
  {
    var first, rest := LittleEndian(Wrap(args[0], 4), 4), EncodeArgs(args[1..]);
    if i == 0 {
      assert (first + rest)[0..4] == first;
    } else {
      ArgAt(args[1..], i - 1);
      assert (first + rest)[4 * i..4 * i + 4] == rest[4 * i - 4..4 * i];
    }
  }

  /** `predict_size` */
  function PredictSize(argLen: int, strLen: int): int { HEADER + 4 * argLen + strLen }

  /** `frozen_size` */
  function FrozenSize(h: Header): int { PredictSize(h.argLen, h.strLen) }

  const MAX_RECORD := HEADER + 4 * 3 + 0x7FFF

  function EncodeArgs(args: seq<int>): (s: seq<byte>)
    ensures |s| == 4 * |args|
  {
    if args == [] then [] else LittleEndian(Wrap(args[0], 4), 4) + EncodeArgs(args[1..])
  }

  function DecodeArgs(s: seq<byte>, n: nat): (args: seq<int>)
    requires 4 * n <= |s|
    ensures |args| == n
  {
    if n == 0 then [] else [SignedLittleEndian(s[..4])] + DecodeArgs(s[4..], n - 1)
  }

  lemma {:induction false} ArgsRoundTrip(args: seq<int>, tail: seq<byte>)
    requires forall a | a in args :: IsInt32(a)
    ensures DecodeArgs(EncodeArgs(args) + tail, |args|) == args
  {
    if args != [] {
      Pow256Values();
      var first, rest := LittleEndian(Wrap(args[0], 4), 4), EncodeArgs(args[1..]);
      Assoc(first, rest, tail);
      var s := first + (rest + tail);
      assert s[..4] == first && s[4..] == rest + tail;
      assert IsInt32(args[0]);
      SignedRoundTrip(args[0], 4);
      DecodeArgsFirst(s, |args|);
      ArgsRoundTrip(args[1..], tail);
      assert args == [args[0]] + args[1..];
    }
  }

  lemma {:induction false} EncodeArgsAppend(args: seq<int>, a: int)
    ensures EncodeArgs(args + [a]) == EncodeArgs(args) + LittleEndian(Wrap(a, 4), 4)
  {
    if args == [] {
      assert args + [a] == [a] && EncodeArgs([a]) == LittleEndian(Wrap(a, 4), 4) + EncodeArgs([]);
    } else {
      assert (args + [a])[1..] == args[1..] + [a];
      EncodeArgsAppend(args[1..], a);
    }
  }

  lemma DecodeArgsFirst(s: seq<byte>, n: nat)
    requires 0 < n && 4 * n <= |s|
    ensures DecodeArgs(s, n) == [SignedLittleEndian(s[..4])] + DecodeArgs(s[4..], n - 1)
  {
  }

  lemma {:induction false} DecodeArgsAppend(s: seq<byte>, n: nat)
    requires 4 * (n + 1) <= |s|
    ensures DecodeArgs(s, n + 1) == DecodeArgs(s, n) + [SignedLittleEndian(s[4 * n..4 * n + 4])]
    decreases n
  {
    var first, last := [SignedLittleEndian(s[..4])], [SignedLittleEndian(s[4 * n..4 * n + 4])];
    DecodeArgsFirst(s, n + 1);
    if n == 0 {
      assert s[..4] == s[4 * n..4 * n + 4];
    } else {
      DecodeArgsFirst(s, n);
      var rest := s[4..];
      SliceOfSuffix(s, 4, 4 * n - 4, 4 * n);
      DecodeArgsAppend(rest, n - 1);
      Assoc(first, DecodeArgs(rest, n - 1), last);
    }
  }

  // ------------------------------------------------------------------ records on the wire

  datatype Record = Record(hdr: Header, args: seq<int>, str: seq<byte>)

  predicate Wf(r: Record) {
    WfHeader(r.hdr) && |r.args| == r.hdr.argLen && |r.str| == r.hdr.strLen && forall a | a in r.args :: IsInt32(a)
  }

  function Encode(r: Record): (s: seq<byte>)
    ensures |s| == 28 + |r.hdr.pad| + 4 * |r.args| + |r.str|
  {
    EncodeHeader(r.hdr) + EncodeArgs(r.args) + r.str
  }

  predicate AllWf(rs: seq<Record>) { forall r | r in rs :: Wf(r) }

  function EncodeAll(rs: seq<Record>): seq<byte> {
    if rs == [] then [] else Encode(rs[0]) + EncodeAll(rs[1..])
  }

  lemma {:induction false} EncodeAllAppend(a: seq<Record>, b: seq<Record>)
    ensures EncodeAll(a + b) == EncodeAll(a) + EncodeAll(b)
  {
    if a == [] {
      assert a + b == b;
    } else {
      assert (a + b)[1..] == a[1..] + b;
      EncodeAllAppend(a[1..], b);
    }
  }

  lemma EncodeAllSplit(rs: seq<Record>, k: nat)
    requires k <= |rs|
    ensures EncodeAll(rs) == EncodeAll(rs[..k]) + EncodeAll(rs[k..])
  {
    Rejoined(rs, k);
    EncodeAllAppend(rs[..k], rs[k..]);
  }

  lemma EncodeOne(r: Record)
    ensures EncodeAll([r]) == Encode(r)
  {
    assert EncodeAll([r]) == Encode(r) + EncodeAll([]);
  }

  lemma EncodeAllSnoc(rs: seq<Record>, r: Record)
    requires AllWf(rs) && Wf(r)
    ensures AllWf(rs + [r]) && EncodeAll(rs + [r]) == EncodeAll(rs) + Encode(r)
  {
    EncodeAllAppend(rs, [r]);
    EncodeOne(r);
  }

  /** The first record's header can be read off the front of any encoding, and with it the record's size. */
  lemma HeaderInFront(r: Record, tail: seq<byte>)
    requires Wf(r)
    ensures |Encode(r)| == FrozenSize(r.hdr)
    ensures (Encode(r) + tail)[..HEADER] == EncodeHeader(r.hdr)
    ensures DecodeHeader((Encode(r) + tail)[..HEADER]) == r.hdr
    ensures (Encode(r) + tail)[HEADER..FrozenSize(r.hdr)] == EncodeArgs(r.args) + r.str
  {
    assert (Encode(r) + tail)[..HEADER] == EncodeHeader(r.hdr);
    HeaderRoundTrip(r.hdr);
  }

  /** No record's encoding is a proper prefix of another's. */
  lemma EncodeInjective(r: Record, x: seq<byte>, s: Record, y: seq<byte>)
    requires Wf(r) && Wf(s) && Encode(r) + x == Encode(s) + y
    ensures r == s && x == y
  {
    HeaderInFront(r, x);
    HeaderInFront(s, y);
    assert r.hdr == s.hdr;
    ArgsRoundTrip(r.args, r.str);
    ArgsRoundTrip(s.args, s.str);
    assert r.args == s.args;
    assert r.str == (EncodeArgs(r.args) + r.str)[|EncodeArgs(r.args)|..];
    assert s.str == (EncodeArgs(s.args) + s.str)[|EncodeArgs(s.args)|..];
    assert x == (Encode(r) + x)[|Encode(r)|..];
    assert y == (Encode(s) + y)[|Encode(s)|..];
  }

  /** A byte stream that starts with the encoding of `a` and is part of the encoding of `b` holds the records of `b`. */
  lemma {:induction false} UniqueParse(a: seq<Record>, x: seq<byte>, b: seq<Record>)
    requires AllWf(a) && AllWf(b) && EncodeAll(a) + x <= EncodeAll(b)
    ensures a <= b && x <= EncodeAll(b[|a|..])
    decreases |a|
  {
    var rest := EncodeAll(b)[|EncodeAll(a) + x|..];
    if a == [] {
      assert EncodeAll(a) + x == x && b[0..] == b;
    } else {
      assert a[0] in a && Wf(a[0]);
      assert b != [];
      assert b[0] in b && Wf(b[0]);
      Assoc(Encode(a[0]), EncodeAll(a[1..]), x);
      Assoc(Encode(a[0]), EncodeAll(a[1..]) + x, rest);
      EncodeInjective(a[0], EncodeAll(a[1..]) + x + rest, b[0], EncodeAll(b[1..]));
      UniqueParse(a[1..], x, b[1..]);
      assert a == [a[0]] + a[1..] && b == [b[0]] + b[1..];
      assert b[1..][|a| - 1..] == b[|a|..];
    }
  }

  // ------------------------------------------------------------------ thawed entries

  /** `logentry_thaw_t` */
  datatype Entry = Entry(fz: Header, arg: seq<int>, str: seq<byte>)

  function Zeros(n: nat): (z: seq<int>)
    ensures |z| == n && forall i | 0 <= i < n :: z[i] == 0
  {
    seq(n, i => 0)
  }

  /** A record as the analyser sees it: missing arguments read as zero. */
  function Thawed(r: Record): Entry
    requires Wf(r)
  {
    Entry(r.hdr, r.args + Zeros(3 - |r.args|), r.str)
  }

  function Frozen(e: Entry): seq<byte>
    requires 0 <= e.fz.argLen <= |e.arg| && 0 <= e.fz.strLen <= |e.str|
  {
    EncodeHeader(e.fz) + EncodeArgs(e.arg[..e.fz.argLen]) + e.str[..e.fz.strLen]
  }

  lemma FrozenThawed(r: Record)
    requires Wf(r)
    ensures Frozen(Thawed(r)) == Encode(r)
  {
    assert (r.args + Zeros(3 - |r.args|))[..r.hdr.argLen] == r.args;
  }

  /** `thaw1` */
  method Thaw1(buf: seq<byte>) returns (h: Header)
    requires |buf| >= HEADER
    ensures h == DecodeHeader(buf[..HEADER])
  {
    h := DecodeHeader(buf[..HEADER]);
  }

  /** `thaw2`: a moving cursor over the bytes after the header. */
  method Thaw2(buf: seq<byte>, h: Header, restSize: int) returns (e: Entry)
    requires 0 <= h.argLen <= 3 && 0 <= h.strLen && restSize == 4 * h.argLen + h.strLen <= |buf|
    ensures e == Entry(h, DecodeArgs(buf, h.argLen) + Zeros(3 - h.argLen), buf[4 * h.argLen..restSize])
  {
    var cur := 0;
    var arg := [];
    var i := 0;
    while i < h.argLen
      invariant 0 <= i <= h.argLen && cur == 4 * i && arg == DecodeArgs(buf, i)
    {
      DecodeArgsAppend(buf, i);
      arg := arg + [SignedLittleEndian(buf[cur..cur + 4])];
      cur := cur + 4;
      i := i + 1;
    }
    while i < 3
      invariant h.argLen <= i <= 3 && arg == DecodeArgs(buf, h.argLen) + Zeros(i - h.argLen)
    {
      arg := arg + [0];
      i := i + 1;
    }
    var str := [];
    if h.strLen != 0 {
      str := buf[cur..cur + h.strLen];
      cur := cur + h.strLen;
    }
    assert restSize == cur;
    e := Entry(h, arg, str);
  }

  /** Thawing the bytes of a record gives the record with its missing arguments zeroed. */
  lemma ThawBytes(r: Record, body: seq<byte>)
    requires Wf(r) && body == EncodeArgs(r.args) + r.str
    ensures Entry(r.hdr, DecodeArgs(body, r.hdr.argLen) + Zeros(3 - r.hdr.argLen), body[4 * r.hdr.argLen..]) == Thawed(r)
  {
    ArgsRoundTrip(r.args, r.str);
    assert body[4 * r.hdr.argLen..] == r.str;
  }

  /** `freeze` */
  method Freeze(buf: array<byte>, e: Entry, size: int)
    requires |e.fz.pad| == 4 && 0 <= e.fz.argLen <= |e.arg| && 0 <= e.fz.strLen <= |e.str|
    requires size == FrozenSize(e.fz) == buf.Length
    modifies buf
    ensures buf[..] == Frozen(e)
  {
    var cur := 0;
    PutBehind(buf, cur, EncodeHeader(e.fz));
    cur := cur + HEADER;
    assert buf[..cur] == EncodeHeader(e.fz);
    var i := 0;
    while i < e.fz.argLen
      invariant 0 <= i <= e.fz.argLen && cur == HEADER + 4 * i
      invariant buf[..cur] == EncodeHeader(e.fz) + EncodeArgs(e.arg[..i])
    {
      EncodeArgsAppend(e.arg[..i], e.arg[i]);
      assert e.arg[..i] + [e.arg[i]] == e.arg[..i + 1];
      Assoc(EncodeHeader(e.fz), EncodeArgs(e.arg[..i]), LittleEndian(Wrap(e.arg[i], 4), 4));
      PutBehind(buf, cur, LittleEndian(Wrap(e.arg[i], 4), 4));
      cur := cur + 4;
      i := i + 1;
    }
    ghost var before := buf[..cur];
    if e.fz.strLen != 0 {
      PutBehind(buf, cur, e.str[..e.fz.strLen]);
      cur := cur + e.fz.strLen;
    }
    assert size == cur;
    assert buf[..] == buf[..cur] == before + e.str[..e.fz.strLen];
  }
}
