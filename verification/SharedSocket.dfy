/**
  Several contexts on one log connection: threads, and forked children that inherit it (vfd.c,
  binlog.c).  Each fills a buffer of its own; their flushes meet on the socket.
 */
module SharedSocket {
  import opened Bytes
  import opened Records
  import opened RelayBooks

  /** A flush that goes out in one write: whole records of one thread of one process. */
  datatype Flush = Flush(pid: nat, tid: nat, recs: seq<Record>)

  predicate Own(r: Record, pid: nat, tid: nat) { r.hdr.pid == pid && r.hdr.tid == tid }

  predicate WfFlush(f: Flush) { AllWf(f.recs) && forall r | r in f.recs :: Own(r, f.pid, f.tid) }

  function Wired(fs: seq<Flush>): seq<byte> {
    if fs == [] then [] else EncodeAll(fs[0].recs) + Wired(fs[1..])
  }

  function AllRecs(fs: seq<Flush>): seq<Record> {
    if fs == [] then [] else fs[0].recs + AllRecs(fs[1..])
  }

  /** What one context has flushed. */
  function FlushedBy(fs: seq<Flush>, pid: nat, tid: nat): seq<Record> {
    if fs == [] then []
    else (if (fs[0].pid, fs[0].tid) == (pid, tid) then fs[0].recs else []) + FlushedBy(fs[1..], pid, tid)
  }

  /** The records of one thread among those of a connection. */
  function Of(rs: seq<Record>, pid: nat, tid: nat): seq<Record> {
    if rs == [] then [] else (if Own(rs[0], pid, tid) then [rs[0]] else []) + Of(rs[1..], pid, tid)
  }

  lemma {:induction false} OfAppend(a: seq<Record>, b: seq<Record>, pid: nat, tid: nat)
    ensures Of(a + b, pid, tid) == Of(a, pid, tid) + Of(b, pid, tid)
  {
    if a == [] {
      assert a + b == b;
    } else {
      assert (a + b)[1..] == a[1..] + b;
      OfAppend(a[1..], b, pid, tid);
      Assoc(if Own(a[0], pid, tid) then [a[0]] else [], Of(a[1..], pid, tid), Of(b, pid, tid));
    }
  }

  lemma {:induction false} OfOwn(rs: seq<Record>, p: nat, t: nat, pid: nat, tid: nat)
    requires forall r | r in rs :: Own(r, p, t)
    ensures Of(rs, pid, tid) == if (p, t) == (pid, tid) then rs else []
  {
    if rs != [] {
      assert rs[0] in rs && rs == [rs[0]] + rs[1..];
      OfOwn(rs[1..], p, t, pid, tid);
    }
  }

  /**
    Whole flushes, in whatever order, make one stream of whole records, in which every thread's are
    its own, in its order.
   */
  lemma {:induction false} WholeFlushesMix(fs: seq<Flush>, pid: nat, tid: nat)
    requires forall f | f in fs :: WfFlush(f)
    ensures AllWf(AllRecs(fs)) && Wired(fs) == EncodeAll(AllRecs(fs))
    ensures Of(AllRecs(fs), pid, tid) == FlushedBy(fs, pid, tid)
  {
    if fs != [] {
      assert fs[0] in fs;
      WholeFlushesMix(fs[1..], pid, tid);
      EncodeAllAppend(fs[0].recs, AllRecs(fs[1..]));
      OfAppend(fs[0].recs, AllRecs(fs[1..]), pid, tid);
      OfOwn(fs[0].recs, fs[0].pid, fs[0].tid, pid, tid);
    }
  }

  /** The differences the records of one thread are given. */
  function ShiftsOf(rs: seq<Record>, shifts: seq<Timeval>, pid: nat, tid: nat): (ds: seq<Timeval>)
    requires |rs| == |shifts|
    ensures |ds| == |Of(rs, pid, tid)|
  {
    if rs == [] then []
    else (if Own(rs[0], pid, tid) then [shifts[0]] else []) + ShiftsOf(rs[1..], shifts[1..], pid, tid)
  }

  /** Stamping does not touch who logged a record. */
  lemma {:induction false} StampedOf(rs: seq<Record>, shifts: seq<Timeval>, pid: nat, tid: nat)
    requires |rs| == |shifts|
    ensures Of(Stamped(rs, shifts), pid, tid) == Stamped(Of(rs, pid, tid), ShiftsOf(rs, shifts, pid, tid))
  {
    if rs != [] {
      StampedOf(rs[1..], shifts[1..], pid, tid);
      assert Stamped(rs, shifts)[1..] == Stamped(rs[1..], shifts[1..]);
      var mine, ds := Of(rs[1..], pid, tid), ShiftsOf(rs[1..], shifts[1..], pid, tid);
      assert Stamped([rs[0]] + mine, [shifts[0]] + ds) == [Stamp(rs[0], shifts[0])] + Stamped(mine, ds);
    }
  }

  lemma {:induction false} OfPrefix(rs: seq<Record>, k: nat, pid: nat, tid: nat)
    requires k <= |rs|
    ensures Of(rs[..k], pid, tid) <= Of(rs, pid, tid)
  {
    Rejoined(rs, k);
    OfAppend(rs[..k], rs[k..], pid, tid);
  }

  /**
    A connection that relays whole flushes of several contexts has moved, of every one of them, the
    first records it flushed, in order, each with its difference.
   */
  lemma EveryContextIsRelayed(fs: seq<Flush>, start: Timeval, clock: Clock, handed: seq<byte>, w: Wire, pid: nat, tid: nat)
    requires (forall f | f in fs :: WfFlush(f)) && Follows(AllRecs(fs), start, clock, handed, w)
    ensures Of(w.moved, pid, tid) <= FlushedBy(fs, pid, tid)
    ensures Of(Output(w), pid, tid) == Stamped(Of(w.moved, pid, tid), ShiftsOf(w.moved, w.shifts, pid, tid))
    ensures handed == Wired(fs) && Settled(AllRecs(fs), w) ==> Of(w.moved, pid, tid) == FlushedBy(fs, pid, tid)
  {
    WholeFlushesMix(fs, pid, tid);
    OfPrefix(AllRecs(fs), |w.moved|, pid, tid);
    StampedOf(w.moved, w.shifts, pid, tid);
    if handed == Wired(fs) && Settled(AllRecs(fs), w) { DeliveredIsMoved(AllRecs(fs), start, clock, w); }
  }

  // ------------------------------------------------------------------ a flush in two writes

  lemma SignedOfBytes(s: seq<byte>)
    requires |s| == 4
    ensures LittleEndian(Wrap(SignedLittleEndian(s), 4), 4) == s
  {
    Pow256Values();
    LittleEndianOfBytes(s);
    var n := FromLittleEndian(s);
    if 2 * n < Pow256(4) { ModSmall(n, Pow256(4)); } else { ModNegative(n - Pow256(4), Pow256(4)); }
  }

  lemma {:induction false} ArgsOfBytes(s: seq<byte>, n: nat)
    requires 4 * n <= |s|
    ensures EncodeArgs(DecodeArgs(s, n)) == s[..4 * n]
  {
    if n > 0 {
      DecodeArgsFirst(s, n);
      SignedOfBytes(s[..4]);
      ArgsOfBytes(s[4..], n - 1);
      var args := DecodeArgs(s, n);
      assert args[0] == SignedLittleEndian(s[..4]) && args[1..] == DecodeArgs(s[4..], n - 1);
      assert s[..4] + s[4..][..4 * n - 4] == s[..4 * n];
    }
  }

  /**
    A short write lets another context's flush into the middle of a record.  When it falls behind the
    header, the record that is relayed has the other record's first bytes for a body: it is the one
    logged if and only if those happen to be the same.
   */
  lemma TornRecord(w: Wire, r: Record, s: Record, tail: seq<byte>)
    requires Wf(r) && Wf(s) && |Encode(r)| - HEADER <= |Encode(s)|
    requires w.held == Encode(r)[..HEADER] + (Encode(s) + tail)
    ensures First(w) == r.hdr && Whole(w) && Sensible(First(w))
    ensures FirstRecord(w) == r <==> Encode(s)[..|Encode(r)| - HEADER] == EncodeArgs(r.args) + r.str
  {
    HeaderInFront(r, []);
    assert Encode(r) + [] == Encode(r);
    assert w.held[..HEADER] == Encode(r)[..HEADER];
    var m := |Encode(r)| - HEADER;
    var body := w.held[HEADER..FrozenSize(r.hdr)];
    assert body == Encode(s)[..m];
    if body == EncodeArgs(r.args) + r.str { FirstIs(w, r); }
    if FirstRecord(w) == r {
      var n := r.hdr.argLen;
      ArgsOfBytes(body, n);
      assert body == body[..4 * n] + body[4 * n..];
    }
  }
}
