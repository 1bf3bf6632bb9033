/** The write half of a virtual descriptor: bytes the processor has not used wait for the next write. */
module VirtualWrite {
  import opened Bytes
  import opened Protocols
  import opened ProtocolTheorems
  import opened Processors
  import opened References

  /** The processors that are bound for writing and use their bytes from the front of one buffer. */
  predicate Writes(st: PState) { st.Psql? || st.Mysql? || st.Fcgi? || st.Trivial? }

  /** What a write finds and leaves: the processor's state, unused bytes, and all written and logged so far. */
  datatype Half = Half(st: PState, left: seq<byte>, written: seq<byte>, wlog: seq<Event>)

  /** One write of `bytes`: the processor's run over what was left and those, and where it ended. */
  ghost predicate Wrote(ref: Reference, before: Half, bytes: seq<byte>, after: Half, aborted: bool) {
    var d := ref.drain(before.st, before.left + bytes);
    && aborted == !d.alive
    && (!aborted ==> after == Half(d.next, d.rest, before.written + bytes, before.wlog + d.events))
  }

  class WriteSide {
    const wbuf: array<byte>
    const pp: Processor
    const log: EventLog

    var wbuflen: int
    var wbufofs: int

    ghost const ref: Reference
    ghost var left: seq<byte>       // wbuf[..wbuflen]
    ghost var st: PState            // the processor's state
    ghost var wire: seq<byte>       // everything the system has accepted from the application
    ghost var written: seq<byte>    // the part of that the processor has been shown
    ghost var wlog: seq<Event>      // everything this processor has logged

    ghost predicate Kept()
      reads this, wbuf, Footprint(pp)
    {
      && wbuf.Length == VBUFSIZE && 0 <= wbufofs <= wbuflen <= VBUFSIZE
      && wbuf[..wbuflen] == left && StateOf(pp) == st && Reachable(st) && Means(ref)
    }

    /** Between writes the processor has used all it can, and it is where the reference run is. */
    ghost predicate Valid()
      reads this, wbuf, Footprint(pp)
    {
      && Kept() && wbufofs == 0
      && (Streaming(ref.first) ==> ref.drain(ref.first, written) == Drained(true, st, left, wlog))
    }

    constructor (pp: Processor, log: EventLog)
      requires IsInit(StateOf(pp)) && Writes(StateOf(pp))
      ensures Valid() && fresh(wbuf) && this.pp == pp && this.log == log
      ensures ref.first == st == StateOf(pp) && left == written == wire == [] && wlog == []
    {
      ghost var first := ReferenceFrom(StateOf(pp));
      Unfold(first, first.first, []);
      this.pp, this.log := pp, log;
      wbuf := new byte[VBUFSIZE](i => 0);
      wbuflen, wbufofs := 0, 0;
      ref, st, left, written, wire, wlog := first, StateOf(pp), [], [], [], [];
    }

    method CallPP(buf: seq<byte>) returns (r: int, aborted: bool)
      requires Means(ref) && buf != [] && Reachable(StateOf(pp))
      modifies Footprint(pp), log
      ensures Did(ref.step(old(StateOf(pp)), buf), r, aborted, old(StateOf(pp)), StateOf(pp),
                  old(log.entries), log.entries)
    {
      assert ref.step(StateOf(pp), buf) == PPStep(StateOf(pp), buf);
      r, aborted := Call(pp, buf, log);
    }

    method Append(bytes: seq<byte>)
      requires Kept() && wbuflen + |bytes| <= VBUFSIZE
      modifies this`wbuflen, this`left, wbuf
      ensures Kept() && left == old(left) + bytes
    {
      MemCpy(wbuf, wbuflen, bytes);
      assert wbuf[..wbuflen + |bytes|] == wbuf[..][..wbuflen + |bytes|] == left + bytes;
      wbuflen := wbuflen + |bytes|;
      left := left + bytes;
    }

    /** The loop of `vwrite_req`: `vlen` bytes are left when the processor wants no more of them. */
    method Exhaust() returns (vlen: nat, aborted: bool)
      requires Kept() && wbufofs == 0
      modifies this`wbufofs, this`st, Footprint(pp), log
      ensures var d := ref.drain(old(st), left);
              if aborted then !d.alive
              else Kept() && d.alive && d.next == st && vlen == wbuflen - wbufofs && d.rest == left[wbufofs..]
                   && log.entries == old(log.entries) + d.events
    {
      ghost var st0, log0, done := st, log.entries, [];
      vlen, aborted := 0, false;
      assert left[0..] == left;
      PrependNothing(ref.drain(st, left));
      while true
        invariant Kept() && log.entries == log0 + done
        invariant ref.drain(st0, left) == Prepend(done, ref.drain(st, left[wbufofs..]))
        decreases wbuflen - wbufofs
      {
        ghost var now, before := left[wbufofs..], st;
        Unfold(ref, st, now);
        vlen := wbuflen - wbufofs;
        if vlen == 0 { break; }
        assert wbuf[wbufofs..wbuflen] == wbuf[..wbuflen][wbufofs..];
        var req;
        req, aborted := CallPP(wbuf[wbufofs..wbuflen]);
        if aborted { return; }
        st := StateOf(pp);
        if req <= 0 { break; }
        wbufofs := wbufofs + req;
        assert now[req..] == left[wbufofs..];
        PrependTwice(done, ref.step(before, now).events, ref.drain(st, left[wbufofs..]));
        done := done + ref.step(before, now).events;
      }
    }

    /** The memmove: what was not used goes to the front. */
    method SaveRest(vlen: nat)
      requires Kept() && vlen == wbuflen - wbufofs
      modifies this`wbufofs, this`wbuflen, this`left, wbuf
      ensures Kept() && wbufofs == 0 && left == old(left[wbufofs..])
    {
      SliceOfFilled(wbuf, wbuflen, wbufofs, wbuflen);
      MoveDown(wbuf, wbufofs, vlen);
      left := left[wbufofs..];
      wbufofs := 0;
      wbuflen := vlen;
    }

    ghost function Now(): Half
      reads this
    {
      Half(st, left, written, wlog)
    }

    /**
      `vwrite_req`: the processor runs over what was left and what was just written, and what it
      does not use is left for next time.
     */
    method VwriteReq(buf: seq<byte>, len: int) returns (aborted: bool)
      requires Valid() && len <= |buf| && wbuflen + len <= VBUFSIZE
      modifies this`wbufofs, this`wbuflen, this`st, this`left, this`written, this`wlog, wbuf, Footprint(pp), log
      ensures !aborted ==> Valid()
      ensures len <= 0 ==> !aborted && Now() == old(Now()) && log.entries == old(log.entries)
      ensures !aborted ==> Logs(old(log.entries), old(wlog), log.entries, wlog)
      ensures len > 0 ==> Wrote(ref, old(Now()), buf[..len], Now(), aborted)
      ensures Hardy(ref.first) ==> !aborted
    {
      if len <= 0 { return false; }
      if Hardy(ref.first) { HardyWrite(ref, written, left + buf[..len]); }
      Append(buf[..len]);
      ghost var left0 := left;
      var vlen;
      vlen, aborted := Exhaust();
      if aborted { return; }
      SaveRest(vlen);
      written := written + buf[..len];
      wlog := wlog + ref.drain(old(st), left0).events;
      if Streaming(ref.first) {
        RunTwice(ref, ref.first, old(written), buf[..len]);
      }
    }

    /** `real_write`: an error, or any number of the bytes, which the other end may read from then on. */
    method SystemWrite(buf: seq<byte>) returns (r: int)
      modifies this`wire
      ensures r <= |buf| && wire == old(wire) + if r > 0 then buf[..r] else []
    {
      r :| -1 <= r <= |buf|;
      if r > 0 { wire := wire + buf[..r]; }
    }

    /**
      The wrapper of `write`: the bytes are on the wire before the processor is shown them; when it
      returns it has been shown all of them.
     */
    method WriteCall(buf: seq<byte>) returns (r: int, aborted: bool)
      requires Valid() && written == wire && wbuflen + |buf| <= VBUFSIZE
      modifies this`wire, this`wbufofs, this`wbuflen, this`st, this`left, this`written, this`wlog, wbuf, Footprint(pp), log
      ensures r <= |buf| && wire == old(wire) + if r > 0 then buf[..r] else []
      ensures !aborted ==> Valid() && written == wire && Logs(old(log.entries), old(wlog), log.entries, wlog)
      ensures r > 0 ==> Wrote(ref, old(Now()), buf[..r], Now(), aborted)
      ensures r <= 0 ==> !aborted && Now() == old(Now())
      ensures Hardy(ref.first) ==> !aborted
    {
      r := SystemWrite(buf);
      assert Valid() && written <= wire;
      aborted := VwriteReq(buf, r);
    }

    /**
      The loop of `writev` over its pieces: however they cut the first `r` bytes, the effect is that
      of one write of those bytes.
     */
    method Writev(vec: seq<seq<byte>>, r: int) returns (aborted: bool)
      requires Valid() && Streaming(ref.first) && r <= |Flatten(vec)| && wbuflen + r <= VBUFSIZE
      modifies this`wbufofs, this`wbuflen, this`st, this`left, this`written, this`wlog, wbuf, Footprint(pp), log
      ensures !aborted ==> Valid() && Logs(old(log.entries), old(wlog), log.entries, wlog)
      ensures r <= 0 ==> !aborted && Now() == old(Now())
      ensures r > 0 ==> Wrote(ref, old(Now()), Flatten(vec)[..r], Now(), aborted)
      ensures Hardy(ref.first) ==> !aborted
    {
      aborted := false;
      if r <= 0 { return; }
      var todo := r;
      ghost var before, done := Now(), [];
      FlattenSplit(vec, 0);
      StreamingState(ref, written);
      NothingWritten(ref, Now());
      for v := 0 to |vec|
        invariant Valid() && 0 < todo <= r && todo <= |Flatten(vec[v..])|
        invariant wbuflen + todo <= VBUFSIZE
        invariant done + Flatten(vec[v..])[..todo] == Flatten(vec)[..r]
        invariant Wrote(ref, before, done, Now(), false)
        invariant Logs(old(log.entries), old(wlog), log.entries, wlog)
      {
        var take := Min(todo, |vec[v]|);
        ghost var piece, rest := vec[v][..take], Flatten(vec[v + 1..])[..todo - take];
        CutPiece(vec, v, take, todo, done);
        ghost var now, log1, wlog1 := Now(), log.entries, wlog;
        aborted := WritePiece(vec[v], take);
        WriteTwice(ref, before, done, now, piece, rest, Now(), aborted);
        if aborted { return; }
        LogGrows(old(log.entries), old(wlog), log1, wlog1, log.entries, wlog);
        done := done + piece;
        todo := todo - take;
        if todo == 0 {
          assert rest == [] && done + rest == done;
          break;
        }
      }
    }

    /** One piece, which may be empty. */
    method WritePiece(buf: seq<byte>, len: nat) returns (aborted: bool)
      requires Valid() && Streaming(ref.first) && len <= |buf| && wbuflen + len <= VBUFSIZE
      modifies this`wbufofs, this`wbuflen, this`st, this`left, this`written, this`wlog, wbuf, Footprint(pp), log
      ensures !aborted ==> Valid() && wbuflen <= old(wbuflen) + len
      ensures Wrote(ref, old(Now()), buf[..len], Now(), aborted)
      ensures !aborted ==> Logs(old(log.entries), old(wlog), log.entries, wlog)
      ensures Hardy(ref.first) ==> !aborted
    {
      NothingWritten(ref, Now());
      DrainShrinks(ref, st, left + buf[..len]);
      aborted := VwriteReq(buf, len);
    }
  }

  /** What this processor logged between two moments is what the log gained. */
  ghost predicate Logs(log0: seq<Event>, wlog0: seq<Event>, log1: seq<Event>, wlog1: seq<Event>) {
    wlog0 <= wlog1 && log1 == log0 + wlog1[|wlog0|..]
  }

  lemma LogGrows(log0: seq<Event>, wlog0: seq<Event>, log1: seq<Event>, wlog1: seq<Event>, log2: seq<Event>, wlog2: seq<Event>)
    requires Logs(log0, wlog0, log1, wlog1) && Logs(log1, wlog1, log2, wlog2)
    ensures Logs(log0, wlog0, log2, wlog2)
  {
  }

  lemma StreamingState(ref: Reference, written: seq<byte>)
    requires Means(ref) && Streaming(ref.first)
    ensures Streaming(ref.drain(ref.first, written).next) && Reachable(ref.drain(ref.first, written).next)
  {
    assert ref.drain(ref.first, written) == Drain(ref.first, written);
    StreamingKept(ref.first, written);
  }

  lemma HardyWrite(ref: Reference, written: seq<byte>, buf: seq<byte>)
    requires Means(ref) && Hardy(ref.first)
    ensures ref.drain(ref.drain(ref.first, written).next, buf).alive
  {
    var st := Drain(ref.first, written).next;
    assert ref.drain(ref.first, written) == Drain(ref.first, written);
    assert ref.drain(st, buf) == Drain(st, buf);
    NeverDies(ref.first, written);
    NeverDies(st, buf);
  }

  /** Nothing is written: the processor has used what it can of what was left. */
  lemma NothingWritten(ref: Reference, now: Half)
    requires Means(ref) && ref.drain(ref.first, now.written) == Drained(true, now.st, now.left, now.wlog)
    ensures Wrote(ref, now, [], now, false)
  {
    assert now.left + [] == now.left && now.written + [] == now.written && now.wlog + [] == now.wlog;
    assert ref.drain(ref.first, now.written) == Drain(ref.first, now.written);
    assert ref.drain(now.st, now.left) == Drain(now.st, now.left);
  }

  /** A write of `piece` after one of `done` is one write of both; a run that dies stays dead. */
  lemma WriteTwice(ref: Reference, a: Half, done: seq<byte>, b: Half, piece: seq<byte>, rest: seq<byte>, c: Half, aborted: bool)
    requires Means(ref) && Streaming(a.st) && Reachable(a.st)
    requires Wrote(ref, a, done, b, false) && Wrote(ref, b, piece, c, aborted)
    ensures Wrote(ref, a, done + piece, c, aborted)
    ensures aborted ==> Wrote(ref, a, done + (piece + rest), c, true)
  {
    Assoc(a.left, done, piece);
    Assoc(a.left, done + piece, rest);
    Assoc(done, piece, rest);
    Assoc(a.written, done, piece);
    RunTwice(ref, a.st, a.left + done, piece);
    RunTwice(ref, a.st, a.left + (done + piece), rest);
    Assoc(a.wlog, ref.drain(a.st, a.left + done).events, ref.drain(b.st, b.left + piece).events);
  }

  /** Chunk invariance in terms of the function values. */
  lemma RunTwice(ref: Reference, st: PState, x: seq<byte>, y: seq<byte>)
    requires Means(ref) && Streaming(st) && Reachable(st)
    ensures var d := ref.drain(st, x);
            if d.alive then ref.drain(st, x + y) == Prepend(d.events, ref.drain(d.next, d.rest + y))
            else !ref.drain(st, x + y).alive
  {
    var d := Drain(st, x);
    assert ref.drain(st, x) == d;
    assert ref.drain(st, x + y) == Drain(st, x + y);
    assert ref.drain(d.next, d.rest + y) == Drain(d.next, d.rest + y);
    ChunkInvariance(st, x, y);
  }

  lemma CutPiece(vec: seq<seq<byte>>, v: nat, take: nat, todo: nat, done: seq<byte>)
    requires v < |vec| && todo <= |Flatten(vec[v..])| && take == Min(todo, |vec[v]|)
    ensures todo - take <= |Flatten(vec[v + 1..])|
    ensures done + Flatten(vec[v..])[..todo] == done + (vec[v][..take] + Flatten(vec[v + 1..])[..todo - take])
    ensures done + Flatten(vec[v..])[..todo] == (done + vec[v][..take]) + Flatten(vec[v + 1..])[..todo - take]
  {
    FlattenSplit(vec, v);
    var piece, rest := vec[v][..take], Flatten(vec[v + 1..])[..todo - take];
    assert Flatten(vec[v..])[..todo] == piece + rest;
    Assoc(done, piece, rest);
  }

  lemma DrainShrinks(ref: Reference, st: PState, buf: seq<byte>)
    requires Means(ref) && Reachable(st)
    ensures |ref.drain(st, buf).rest| <= |buf|
  {
    assert ref.drain(st, buf) == Drain(st, buf);
  }

  lemma FlattenSplit(vec: seq<seq<byte>>, v: nat)
    requires v <= |vec|
    ensures vec[0..] == vec
    ensures v < |vec| ==> Flatten(vec[v..]) == vec[v] + Flatten(vec[v + 1..])
  {
    if v < |vec| { assert vec[v..][1..] == vec[v + 1..]; }
  }
}
