/** The log daemon: one relay buffer per connection, whole records merged into one file (logd.c). */
module Logd {
  import opened Bytes
  import opened Kernels
  import opened Records
  import opened RelayBooks

  // ------------------------------------------------------------------ the output file

  /** A record and the connection it came from. */
  datatype Tagged = Tagged(conn: int, rec: Record)

  function Recs(ts: seq<Tagged>): seq<Record> {
    if ts == [] then [] else [ts[0].rec] + Recs(ts[1..])
  }

  /** The records of one connection, in file order. */
  function Project(ts: seq<Tagged>, conn: int): seq<Record> {
    if ts == [] then []
    else (if ts[0].conn == conn then [ts[0].rec] else []) + Project(ts[1..], conn)
  }

  lemma {:induction false} RecsSnoc(ts: seq<Tagged>, t: Tagged)
    ensures Recs(ts + [t]) == Recs(ts) + [t.rec]
  {
    if ts == [] {
      assert ts + [t] == [t] && Recs([t]) == [t.rec] + Recs([]);
    } else {
      assert (ts + [t])[1..] == ts[1..] + [t];
      RecsSnoc(ts[1..], t);
    }
  }

  lemma {:induction false} ProjectSnoc(ts: seq<Tagged>, t: Tagged, conn: int)
    ensures Project(ts + [t], conn) == Project(ts, conn) + if t.conn == conn then [t.rec] else []
  {
    if ts == [] {
      assert ts + [t] == [t] && Project([t], conn) == (if t.conn == conn then [t.rec] else []) + Project([], conn);
    } else {
      assert (ts + [t])[1..] == ts[1..] + [t];
      ProjectSnoc(ts[1..], t, conn);
      Assoc(if ts[0].conn == conn then [ts[0].rec] else [], Project(ts[1..], conn), if t.conn == conn then [t.rec] else []);
    }
  }

  class OutFile {
    ghost var bytes: seq<byte>
    ghost var tagged: seq<Tagged>

    /** The file is a sequence of whole records. */
    ghost predicate Valid()
      reads this
    {
      AllWf(Recs(tagged)) && bytes == EncodeAll(Recs(tagged))
    }

    constructor ()
      ensures Valid() && tagged == []
    {
      bytes, tagged := [], [];
    }

    /** A complete write of one record's bytes. */
    method Write(buf: array<byte>, ghost t: Tagged) returns (n: nat)
      requires Valid() && Wf(t.rec) && buf[..] == Encode(t.rec)
      modifies this
      ensures Valid() && tagged == old(tagged) + [t] && n == buf.Length
    {
      RecsSnoc(tagged, t);
      EncodeAllSnoc(Recs(tagged), t.rec);
      bytes, tagged := bytes + buf[..], tagged + [t];
      n := buf.Length;
    }
  }

  // ------------------------------------------------------------------ one connection

  /** The entries of the per-descriptor tables, and the client's side of the connection as ghosts. */
  class Relay {
    const conn: int
    const relay: array<byte>
    const kernel: Kernel
    const clock: Clock
    var bEnd: int
    var avail: int
    var timediff: Timeval
    var ticks: nat

    ghost var moved: seq<Record>     // the records moved to the file, as they came
    ghost var shifts: seq<Timeval>   // the differences they were given

    ghost const plan: seq<Record>    // all the client ever logs on this connection
    ghost const start: Timeval       // the difference found on the descriptor

    ghost predicate Bounds()
      reads this
    {
      && relay.Length == RELAY_BUF && 0 <= bEnd && 0 <= avail && bEnd + avail == RELAY_BUF
      && |moved| == |shifts|
    }

    ghost function Now(): Wire
      requires Bounds()
      reads this, relay
    {
      Wire(relay[..bEnd], timediff, ticks, moved, shifts, false)
    }

    /** The stream is the client's, and the relay is where it should be in it. */
    ghost predicate Valid()
      reads this, relay, kernel
    {
      && Bounds() && Right(clock)
      && Follows(plan, start, clock, kernel.handed, Now())
      && kernel.handed + kernel.incoming <= EncodeAll(plan)
    }

    /** The connection's part of the file is the records moved, with their differences. */
    ghost predicate InStep(out: OutFile)
      reads this, out
    {
      |shifts| == |moved| && Project(out.tagged, conn) == Stamped(moved, shifts)
    }

    ghost predicate AtRest()
      reads this, relay
    {
      Bounds() && Settled(plan, Now())
    }

    /**
      A connection accepted on a descriptor.  The daemon gives it a cleared buffer but leaves
      `b_end`, `avail` and `timediff` as the last connection on that descriptor left them.
     */
    constructor Accept(conn: int, kernel: Kernel, clock: Clock, staleEnd: nat, staleDiff: Timeval, ghost plan: seq<Record>)
      requires staleEnd <= RELAY_BUF
      ensures Bounds() && Now() == Start(staleEnd, staleDiff)
      ensures fresh(relay) && this.conn == conn && this.kernel == kernel && this.clock == clock
      ensures this.plan == plan && this.start == staleDiff
    {
      this.conn, this.kernel, this.clock, this.plan, this.start := conn, kernel, clock, plan, staleDiff;
      relay := new byte[RELAY_BUF](i => 0);
      bEnd, avail, timediff, ticks, moved, shifts := staleEnd, RELAY_BUF - staleEnd, staleDiff, 0, [], [];
    }

    /** `record_timediff` */
    method RecordTimediff(h: Header)
      modifies this`timediff, this`ticks
      ensures timediff == TimerSub(clock(old(ticks)), TimeOf(h)) && ticks == old(ticks) + 1
    {
      var localtime := clock(ticks);
      ticks := ticks + 1;
      timediff := TimerSub(localtime, TimeOf(h));
    }

    /** Thaw the header in front of the buffer, and take the time difference if there is none yet. */
    method Peek() returns (frozen: Header)
      requires Bounds() && bEnd >= HEADER
      modifies this`timediff, this`ticks
      ensures Bounds() && Now() == Look(old(Now()), clock) && frozen == First(Now())
    {
      SliceOfFilled(relay, bEnd, 0, HEADER);
      assert relay[..HEADER] == relay[0..HEADER] && relay[..HEADER][..HEADER] == relay[..HEADER];
      frozen := Thaw1(relay[..HEADER]);
      if !IsSet(timediff) {
        RecordTimediff(frozen);
      }
    }

    /** Thaw a record, apply the time difference to it, freeze it again. */
    method Restamp(frozen: Header, body: seq<byte>, ghost rec: Record) returns (buf: array<byte>)
      requires Wf(rec) && frozen == rec.hdr && |body| == FrozenSize(frozen) - HEADER
      requires rec.args == DecodeArgs(body, frozen.argLen) && rec.str == body[4 * frozen.argLen..]
      ensures fresh(buf) && Wf(Stamp(rec, timediff)) && buf[..] == Encode(Stamp(rec, timediff))
    {
      var size := FrozenSize(frozen);
      var logentry := Thaw2(body, frozen, size - HEADER);
      assert body[4 * frozen.argLen..size - HEADER] == body[4 * frozen.argLen..];
      var newtime := TimerAdd(TimeOf(frozen), timediff);
      logentry := logentry.(fz := logentry.fz.(hi := newtime.sec % 0x1_0000_0000, lo := newtime.usec % 0x1_0000_0000));
      FrozenThawed(Stamp(rec, timediff));
      buf := new byte[size];
      Freeze(buf, logentry, size);
    }

    /** The shift loop: `size` bytes leave the front of the buffer. */
    method ShiftLeft(size: nat)
      requires size <= bEnd <= relay.Length
      modifies this`bEnd, this`avail, relay
      ensures bEnd == old(bEnd) - size && avail == old(avail) + size && relay[..bEnd] == old(relay[size..bEnd])
    {
      MoveDown(relay, size, bEnd - size);
      bEnd := bEnd - size;
      avail := avail + size;
    }

    /** Shift the buffer over the record that was written. */
    method Drop(size: int)
      requires Bounds() && bEnd >= HEADER && Whole(Now()) && Sensible(First(Now())) && size == FrozenSize(First(Now()))
      modifies this`bEnd, this`avail, this`moved, this`shifts, relay
      ensures Bounds() && Now() == MoveFirst(old(Now()))
    {
      ghost var rec := FirstRecord(Now());
      SliceOfFilled(relay, bEnd, size, bEnd);
      ShiftLeft(size);
      moved, shifts := moved + [rec], shifts + [timediff];
    }

    /**
      One turn of the loop of `transfer_out`: move the first record to the file if all of it is here.
      A record whose lengths make no sense is beyond what the daemon can take apart.
     */
    method MoveOne(out: OutFile) returns (done: bool, crashed: bool)
      requires Bounds() && InStep(out) && out.Valid() && bEnd >= HEADER
      modifies this`bEnd, this`avail, this`timediff, this`ticks, this`moved, this`shifts, relay, out
      ensures Bounds() && InStep(out) && out.Valid()
      ensures forall c | c != conn :: Project(out.tagged, c) == Project(old(out.tagged), c)
      ensures crashed ==> done && MoveAll(old(Now()), clock) == Now().(crashed := true)
      ensures !crashed && done ==> MoveAll(old(Now()), clock) == Now()
      ensures !done ==> MoveAll(old(Now()), clock) == MoveAll(Now(), clock) && bEnd < old(bEnd)
    {
      var frozen := Peek();
      var size := FrozenSize(frozen);
      if size < 0 || bEnd < size { return true, false; }
      if !Sensible(frozen) { return true, true; }
      MoveWhole(out, frozen, size);
      return false, false;
    }

    /** Stamp the first record, write it, and shift it out. */
    method MoveWhole(out: OutFile, frozen: Header, size: int)
      requires Bounds() && InStep(out) && out.Valid() && bEnd >= HEADER
      requires frozen == First(Now()) && size == FrozenSize(frozen) && Whole(Now()) && Sensible(frozen)
      modifies this`bEnd, this`avail, this`moved, this`shifts, relay, out
      ensures Bounds() && InStep(out) && out.Valid() && Now() == MoveFirst(old(Now()))
      ensures forall c | c != conn :: Project(out.tagged, c) == Project(old(out.tagged), c)
    {
      ghost var rec := FirstRecord(Now());
      FirstRecordWf(Now());
      SliceOfFilled(relay, bEnd, HEADER, size);
      var buf := Restamp(frozen, relay[HEADER..size], rec);
      Emit(out, buf, Stamp(rec, timediff));
      StampedMore(moved, shifts, rec, timediff);
      Drop(size);
    }

    /** Write one stamped record to the file, tagged with this connection. */
    method Emit(out: OutFile, buf: array<byte>, ghost rec: Record)
      requires out.Valid() && Wf(rec) && buf[..] == Encode(rec)
      modifies out
      ensures out.Valid() && Project(out.tagged, conn) == Project(old(out.tagged), conn) + [rec]
      ensures forall c | c != conn :: Project(out.tagged, c) == Project(old(out.tagged), c)
    {
      ghost var before, t := out.tagged, Tagged(conn, rec);
      var n := out.Write(buf, t);
      ProjectSnoc(before, t, conn);
      forall c | c != conn ensures Project(out.tagged, c) == Project(before, c) {
        ProjectSnoc(before, t, c);
      }
    }

    /** `transfer_out`: move records to the file until the first one is not all here. */
    method TransferOut(out: OutFile) returns (crashed: bool)
      requires Bounds() && InStep(out) && out.Valid()
      modifies this`bEnd, this`avail, this`timediff, this`ticks, this`moved, this`shifts, relay, out
      ensures Bounds() && InStep(out) && out.Valid()
      ensures MoveAll(old(Now()), clock) == Now().(crashed := crashed)
      ensures forall c | c != conn :: Project(out.tagged, c) == Project(old(out.tagged), c)
    {
      crashed := false;
      while bEnd >= HEADER
        invariant Bounds() && InStep(out) && out.Valid() && !crashed
        invariant MoveAll(old(Now()), clock) == MoveAll(Now(), clock)
        invariant forall c | c != conn :: Project(out.tagged, c) == Project(old(out.tagged), c)
        decreases bEnd
      {
        var done;
        done, crashed := MoveOne(out);
        if done { return; }
      }
    }

    /** One system call, which handed over as many of the bytes that had arrived as it said. */
    ghost predicate ReadOnce(r: int, handed: seq<byte>, incoming: seq<byte>, calls: nat)
      reads kernel
    {
      && |kernel.handed| == |handed| + (if r > 0 then r else 0) && kernel.calls == calls + 1
      && kernel.handed + kernel.incoming == handed + incoming
    }

    /** Everything that can be moved has been, but for a last record of nothing but a header. */
    ghost predicate Moved()
      reads this, relay
    {
      Bounds() && (AtRest() || (|moved| < |plan| && bEnd == HEADER && relay[..bEnd] == Encode(plan[|moved|])))
    }

    /** What one turn of the daemon does: one read, and the transfer; at the end nothing is held back. */
    ghost predicate Served(r: int, handed: seq<byte>, incoming: seq<byte>, calls: nat)
      reads this, relay, kernel
    {
      ReadOnce(r, handed, incoming, calls) && Moved() && (r <= 0 ==> AtRest() && kernel.handed == handed)
    }

    /** The read of `transfer_in`. */
    method ReadMore() returns (r: int, ghost chunk: seq<byte>)
      requires Bounds()
      modifies this`bEnd, this`avail, relay, kernel
      ensures Bounds() && kernel.lastRoom == RELAY_BUF - old(bEnd)
      ensures kernel.handed + kernel.incoming == old(kernel.handed + kernel.incoming) && kernel.calls == old(kernel.calls) + 1
      ensures r <= 0 ==> chunk == [] && Now() == old(Now())
      ensures r > 0 ==> |chunk| == r && Now() == old(Now()).(held := old(Now()).held + chunk)
      ensures kernel.handed == old(kernel.handed) + chunk
    {
      ghost var held, handed, incoming := relay[..bEnd], kernel.handed, kernel.incoming;
      chunk := [];
      r := kernel.Read(relay, bEnd, avail);
      if r <= 0 { return; }
      chunk := incoming[..r];
      SplitSlice(relay[..], 0, bEnd, bEnd + r);
      assert relay[..bEnd + r] == held + chunk;
      assert incoming == chunk + kernel.incoming;
      Assoc(handed, chunk, kernel.incoming);
      avail := avail - r;
      bEnd := bEnd + r;
    }

    /** `transfer_in`: one read into the free part of the buffer, whatever arrives. */
    method TransferIn(out: OutFile) returns (r: int, crashed: bool, ghost chunk: seq<byte>)
      requires Bounds() && InStep(out) && out.Valid()
      modifies this`bEnd, this`avail, this`timediff, this`ticks, this`moved, this`shifts, relay, kernel, out
      ensures Bounds() && InStep(out) && out.Valid()
      ensures kernel.lastRoom == RELAY_BUF - old(bEnd) && kernel.handed == old(kernel.handed) + chunk
      ensures kernel.handed + kernel.incoming == old(kernel.handed + kernel.incoming) && kernel.calls == old(kernel.calls) + 1
      ensures r <= 0 ==> chunk == [] && !crashed && Now() == old(Now()) && out.tagged == old(out.tagged)
      ensures r > 0 ==> |chunk| == r && Feed(old(Now()), chunk, clock) == Now().(crashed := crashed)
      ensures forall c | c != conn :: Project(out.tagged, c) == Project(old(out.tagged), c)
    {
      crashed := false;
      r, chunk := ReadMore();
      if r <= 0 { return; }
      if bEnd > HEADER {
        crashed := TransferOut(out);
      }
    }

    /**
      Relaying a client's records, the buffer never fills: there always is room, so a read of 0 bytes
      is an end of file; nothing crashes, and less than one record of the largest size stays behind.
     */
    method Receive(out: OutFile) returns (r: int)
      requires Valid() && InStep(out) && out.Valid() && bEnd < MAX_RECORD
      modifies this`bEnd, this`avail, this`timediff, this`ticks, this`moved, this`shifts, relay, kernel, out
      ensures Valid() && InStep(out) && out.Valid() && bEnd < MAX_RECORD
      ensures kernel.lastRoom == 4 * 1024 * 1024 - old(bEnd) > 0
      ensures r <= 0 ==> kernel.handed == old(kernel.handed) && Now() == old(Now()) && out.tagged == old(out.tagged)
      ensures ReadOnce(r, old(kernel.handed), old(kernel.incoming), old(kernel.calls))
      ensures r > 0 ==> Moved()
      ensures forall c | c != conn :: Project(out.tagged, c) == Project(old(out.tagged), c)
    {
      ghost var before, handed := Now(), kernel.handed;
      var crashed;
      ghost var chunk;
      r, crashed, chunk := TransferIn(out);
      if r <= 0 { return; }
      assert handed + chunk <= EncodeAll(plan);
      FeedFollows(plan, start, clock, handed, before, chunk);
      HeldIsSmall(plan, Now());
    }

    /** The `transfer_out` of a disconnect: everything that is whole is moved. */
    method Finish(out: OutFile)
      requires Valid() && InStep(out) && out.Valid()
      modifies this`bEnd, this`avail, this`timediff, this`ticks, this`moved, this`shifts, relay, out
      ensures Valid() && InStep(out) && out.Valid() && AtRest() && bEnd < MAX_RECORD
      ensures forall c | c != conn :: Project(out.tagged, c) == Project(old(out.tagged), c)
    {
      ghost var before := Now();
      MoveAllFollows(plan, start, clock, kernel.handed, before);
      var crashed := TransferOut(out);
      HeldIsSmall(plan, Now());
    }
  }

  /** Any 32 bytes are a header whose other fields are in range. */
  lemma FirstRecordWf(w: Wire)
    requires |w.held| >= HEADER && Whole(w) && Sensible(First(w))
    ensures Wf(FirstRecord(w))
  {
    var h := First(w);
    var s := w.held[..HEADER];
    Pow256Values();
    DecodedRange(s[20..22]);
    DecodedRange(s[22..24]);
    DecodedRange(s[26..28]);
    DecodedArgs(w.held[HEADER..FrozenSize(h)], h.argLen);
  }

  lemma DecodedRange(s: seq<byte>)
    requires |s| == 2 || |s| == 4
    ensures |s| == 2 ==> IsShort(SignedLittleEndian(s))
    ensures |s| == 4 ==> IsInt32(SignedLittleEndian(s))
  {
    Pow256Values();
  }

  lemma {:induction false} DecodedArgs(s: seq<byte>, n: nat)
    requires 4 * n <= |s|
    ensures forall a | a in DecodeArgs(s, n) :: IsInt32(a)
  {
    if n > 0 {
      DecodedRange(s[..4]);
      DecodedArgs(s[4..], n - 1);
    }
  }

  lemma StampedMore(moved: seq<Record>, shifts: seq<Timeval>, rec: Record, diff: Timeval)
    requires |moved| == |shifts|
    ensures Stamped(moved + [rec], shifts + [diff]) == Stamped(moved, shifts) + [Stamp(rec, diff)]
  {
  }
}
