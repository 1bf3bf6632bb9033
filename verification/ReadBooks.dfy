/**
  The read half of a virtual descriptor as a value: one buffer, the processor's position, the
  application's position, and the streams on either side.  `VirtualRead` keeps its fields in step
  with these functions.
 */
module ReadBooks {
  import opened Bytes
  import opened Protocols
  import opened ProtocolTheorems
  import opened References

  datatype Books = Books(
    handed: seq<byte>,      // everything the operating system has handed over
    consumed: seq<byte>,    // everything the processor has used
    delivered: seq<byte>,   // everything the application has been given
    held: seq<byte>,        // the buffer, rbuf[..rbuflen]
    ofs: int,               // rbufofs
    last: int,              // rlastlen
    tosend: int,
    wantmore: bool,         // ppwantmore
    st: PState,             // the processor's state
    rlog: seq<Event>        // everything the processor has logged
  ) {
    /** The next read will be served without calling the operating system. */
    predicate Buffered() { tosend > 0 || (ofs < |held| && !wantmore) }

    /** How many bytes the operating system will be asked for. */
    function Room(): int { VBUFSIZE - (|held| - Min(ofs, last)) }
  }

  function NoBooks(st: PState): Books { Books([], [], [], [], 0, 0, 0, false, st, []) }

  /** No byte is lost, duplicated or reordered, and the processor has run on exactly what it has used. */
  ghost predicate Streams(b: Books, ref: Reference) {
    && Means(ref) && Reachable(b.st)
    && 0 <= b.ofs <= |b.held| <= VBUFSIZE
    && 0 <= b.last && 0 <= b.tosend && b.last + b.tosend <= |b.held|
    && b.handed == b.consumed + b.held[b.ofs..]
    && b.handed == b.delivered + b.held[b.last..]
    && (Streaming(ref.first) ==> ref.drain(ref.first, b.consumed) == Drained(true, b.st, [], b.rlog))
  }

  ghost predicate Sound(b: Books, ref: Reference) {
    && Streams(b, ref)
    && if b.wantmore
       then b.last + b.tosend == |b.held| && b.ofs <= b.last && b.ofs < |b.held| && ref.step(b.st, b.held[b.ofs..]) == More
       else b.last + b.tosend == b.ofs
  }

  /** Bytes the processor has not seen are waiting for it; it wanted more than the ones it had seen. */
  ghost predicate Pending(b: Books, ref: Reference) {
    && Streams(b, ref)
    && b.tosend == 0 && b.ofs <= b.last < |b.held|
    && (b.ofs < b.last ==> ref.step(b.st, b.held[b.ofs..b.last]) == More)
  }

  /** `buf_shift` */
  function Shift(b: Books): Books
    requires 0 <= Min(b.ofs, b.last) <= |b.held|
  {
    var begin := Min(b.ofs, b.last);
    b.(held := b.held[begin..], ofs := b.ofs - begin, last := b.last - begin)
  }

  /** A successful system call. */
  function Grow(b: Books, news: seq<byte>): Books {
    b.(held := b.held + news, handed := b.handed + news)
  }

  /** `present_pp`, given what the processor did. */
  function Present(b: Books, s: Step<PState>): Books
    requires 0 <= b.ofs <= |b.held| && (s.Took? ==> b.ofs + s.n <= |b.held|)
  {
    match s
    case Took(n, next, events) =>
      b.(consumed := b.consumed + b.held[b.ofs..b.ofs + n], ofs := b.ofs + n, tosend := b.ofs + n - b.last,
         wantmore := false, st := next, rlog := b.rlog + events)
    case _ => b.(tosend := |b.held| - b.last, wantmore := true)
  }

  /** `buf_ret` */
  function Deliver(b: Books, n: nat): Books
    requires 0 <= b.last && b.last + n <= |b.held|
  {
    b.(delivered := b.delivered + b.held[b.last..b.last + n], last := b.last + n, tosend := b.tosend - n)
  }

  lemma FirstSound(ref: Reference)
    requires Means(ref)
    ensures Sound(NoBooks(ref.first), ref)
  {
    Unfold(ref, ref.first, []);
  }

  lemma ShiftSound(b: Books, ref: Reference)
    requires Sound(b, ref) && !b.Buffered()
    ensures Sound(Shift(b), ref) && !Shift(b).Buffered()
    ensures Shift(b).last == |Shift(b).held| && Shift(b).ofs == 0 && |Shift(b).held| == VBUFSIZE - b.Room()
  {
  }

  lemma GrowPending(b: Books, ref: Reference, news: seq<byte>)
    requires Sound(b, ref) && !b.Buffered() && b.last == |b.held| && b.ofs == 0
    requires news != [] && |b.held| + |news| <= VBUFSIZE
    ensures Pending(Grow(b, news), ref)
  {
    var g := Grow(b, news);
    assert g.held[g.ofs..] == b.held[b.ofs..] + news;
    assert g.held[g.last..] == news && b.held[b.last..] == [];
    assert g.held[g.ofs..g.last] == b.held[b.ofs..];
  }

  lemma ShowPending(b: Books, ref: Reference)
    requires Sound(b, ref) && b.tosend == 0 && b.Buffered()
    ensures Pending(b, ref)
  {
  }

  /** A processor that wanted more than it had seen uses more than that. */
  lemma PendingStep(b: Books, ref: Reference)
    requires Pending(b, ref)
    ensures b.held[b.ofs..] != []
    ensures match ref.step(b.st, b.held[b.ofs..])
            case Took(n, next, _) => b.last < b.ofs + n <= |b.held| && Reachable(next)
            case _ => true
  {
    assert ref.step(b.st, b.held[b.ofs..]) == PPStep(b.st, b.held[b.ofs..]);
    if b.ofs < b.last {
      assert ref.step(b.st, b.held[b.ofs..b.last]) == PPStep(b.st, b.held[b.ofs..b.last]);
      MoreMeansMore(b.st, b.held[b.ofs..b.last], b.held[b.last..]);
      assert b.held[b.ofs..b.last] + b.held[b.last..] == b.held[b.ofs..];
    }
  }

  /** Showing the processor what is pending always leaves something for the application. */
  lemma PresentSound(b: Books, ref: Reference)
    requires Pending(b, ref)
    requires !ref.step(b.st, b.held[b.ofs..]).Died?
    ensures b.held[b.ofs..] != []
    ensures match ref.step(b.st, b.held[b.ofs..]) case Took(n, _, _) => 0 < n <= |b.held| - b.ofs case _ => true
    ensures var p := Present(b, ref.step(b.st, b.held[b.ofs..])); Sound(p, ref) && p.tosend > 0
  {
    PendingStep(b, ref);
    if ref.step(b.st, b.held[b.ofs..]).Took? { PresentTook(b, ref); }
  }

  lemma PresentTook(b: Books, ref: Reference)
    requires Pending(b, ref) && ref.step(b.st, b.held[b.ofs..]).Took?
    requires var s := ref.step(b.st, b.held[b.ofs..]); b.last < b.ofs + s.n <= |b.held| && Reachable(s.next)
    ensures var p := Present(b, ref.step(b.st, b.held[b.ofs..])); Sound(p, ref) && p.tosend > 0
  {
    var s := ref.step(b.st, b.held[b.ofs..]);
    CutAt(b.consumed, b.held, b.ofs, s.n);
    if Streaming(ref.first) { PresentInStep(b, ref); }
  }

  lemma CutAt(front: seq<byte>, held: seq<byte>, ofs: nat, n: nat)
    requires ofs + n <= |held|
    ensures front + held[ofs..] == (front + held[ofs..ofs + n]) + held[ofs + n..]
    ensures held[ofs..][..n] == held[ofs..ofs + n]
  {
    SplitSlice(held, ofs, ofs + n, |held|);
    Assoc(front, held[ofs..ofs + n], held[ofs + n..]);
  }

  lemma PresentInStep(b: Books, ref: Reference)
    requires Pending(b, ref) && Streaming(ref.first)
    requires ref.step(b.st, b.held[b.ofs..]).Took?
    ensures var s := ref.step(b.st, b.held[b.ofs..]);
            s.n <= |b.held| - b.ofs
            && ref.drain(ref.first, b.consumed + b.held[b.ofs..][..s.n]) == Drained(true, s.next, [], b.rlog + s.events)
  {
    var shown := b.held[b.ofs..];
    assert ref.drain(ref.first, b.consumed) == Drain(ref.first, b.consumed);
    assert ref.step(b.st, shown) == PPStep(b.st, shown);
    DrainOneStep(ref.first, b.consumed, shown);
    var n := PPStep(b.st, shown).n;
    assert ref.drain(ref.first, b.consumed + shown[..n]) == Drain(ref.first, b.consumed + shown[..n]);
  }

  /**
    After a delivery something is left in the buffer exactly when the next read needs no system
    call: the test `buf_ret` makes is exact.
   */
  lemma DeliverSound(b: Books, ref: Reference, n: nat)
    requires Sound(b, ref) && n <= b.tosend && b.tosend > 0
    ensures Sound(Deliver(b, n), ref)
    ensures Deliver(b, n).Buffered() <==> Deliver(b, n).last != |b.held|
  {
    var given, left := b.held[b.last..b.last + n], b.held[b.last + n..];
    assert b.held[b.last..] == given + left;
    assert b.delivered + (given + left) == (b.delivered + given) + left;
  }

  /** What has arrived behind the bytes the processor has used. */
  function Unused(handed: seq<byte>, consumed: seq<byte>): seq<byte> {
    if |consumed| <= |handed| then handed[|consumed|..] else []
  }

  lemma UnusedIsHeld(b: Books, ref: Reference)
    requires Streams(b, ref)
    ensures Unused(b.handed, b.consumed) == b.held[b.ofs..]
  {
  }

  /** The call of the processor that stops the process, if there is one. */
  predicate Dies(ref: Reference, st: PState, shown: seq<byte>) { shown != [] && ref.step(st, shown).Died? }

  /** Bytes left behind after everything has been delivered have been looked at already. */
  lemma IdleIsQuiet(b: Books, ref: Reference)
    requires Sound(b, ref) && !b.Buffered()
    ensures !Dies(ref, b.st, Unused(b.handed, b.consumed))
  {
    UnusedIsHeld(b, ref);
  }

  lemma HardyStep(b: Books, ref: Reference, shown: seq<byte>)
    requires Streams(b, ref) && Hardy(ref.first)
    ensures !Dies(ref, b.st, shown)
  {
    if shown == [] { return; }
    assert ref.drain(ref.first, b.consumed) == Drain(ref.first, b.consumed);
    NeverDies(ref.first, b.consumed);
    NeverDies(b.st, shown);
    assert ref.step(b.st, shown) == PPStep(b.st, shown);
  }

  lemma HardyBooks(b: Books, ref: Reference)
    requires Streams(b, ref) && Hardy(ref.first)
    ensures forall shown :: !Dies(ref, b.st, shown)
  {
    forall shown ensures !Dies(ref, b.st, shown) { HardyStep(b, ref, shown); }
  }

  /** The processor has been shown `shown`, and did what `step` says, as far as its books go. */
  ghost predicate Ran(before: Books, shown: seq<byte>, step: Step<PState>, after: Books) {
    match step
    case Took(n, next, events) =>
      && n <= |shown| && after.consumed == before.consumed + shown[..n] && after.st == next
      && after.rlog == before.rlog + events && !after.wantmore
    case _ => after.consumed == before.consumed && after.st == before.st && after.rlog == before.rlog && after.wantmore
  }

  /** The processor has not been called. */
  ghost predicate Idle(before: Books, after: Books) {
    after.consumed == before.consumed && after.st == before.st && after.rlog == before.rlog
  }

  lemma RanSince(before: Books, idle: Books, shown: seq<byte>, step: Step<PState>, after: Books)
    requires Idle(before, idle) && Ran(idle, shown, step, after)
    ensures Ran(before, shown, step, after)
  {
  }

  lemma PresentRan(b: Books, ref: Reference)
    requires Pending(b, ref) && !ref.step(b.st, b.held[b.ofs..]).Died?
    ensures var shown := Unused(b.handed, b.consumed);
            var s := ref.step(b.st, shown);
            0 <= b.ofs <= |b.held| && (s.Took? ==> b.ofs + s.n <= |b.held|) && Ran(b, shown, s, Present(b, s))
  {
    UnusedIsHeld(b, ref);
    PendingStep(b, ref);
    var s := ref.step(b.st, b.held[b.ofs..]);
    if s.Took? { CutAt([], b.held, b.ofs, s.n); }
  }

  /** The books after `present_pp`. */
  lemma PresentAll(b: Books, ref: Reference) returns (p: Books)
    requires Pending(b, ref) && !ref.step(b.st, b.held[b.ofs..]).Died?
    ensures Sound(p, ref) && p.tosend > 0
    ensures p.held == b.held && p.last == b.last && p.handed == b.handed && p.delivered == b.delivered
    ensures Ran(b, Unused(b.handed, b.consumed), ref.step(b.st, Unused(b.handed, b.consumed)), p) && b.rlog <= p.rlog
    ensures p.ofs == b.ofs + |p.consumed| - |b.consumed| && p.tosend == (if p.wantmore then |p.held| else p.ofs) - p.last
  {
    UnusedIsHeld(b, ref);
    PresentSound(b, ref);
    PresentRan(b, ref);
    p := Present(b, ref.step(b.st, b.held[b.ofs..]));
  }

  // ------------------------------------------------------------------ what the books say

  lemma SameTail(a: seq<byte>, b: seq<byte>, mid: seq<byte>, tail: seq<byte>)
    requires a + tail == b + (mid + tail)
    ensures a == b + mid
  {
    assert b + (mid + tail) == (b + mid) + tail;
    assert a == (a + tail)[..|a|] && b + mid == ((b + mid) + tail)[..|b + mid|];
  }

  /**
    No byte overtakes its event: whatever the reference parser logs on the bytes delivered to the
    application so far has already been logged.
   */
  lemma NoByteOvertakesItsEvent(b: Books, ref: Reference)
    requires Sound(b, ref) && Streaming(ref.first)
    ensures Drain(ref.first, b.delivered).events <= b.rlog
  {
    assert ref.drain(ref.first, b.consumed) == Drain(ref.first, b.consumed);
    if b.last <= b.ofs {
      assert b.held[b.last..] == b.held[b.last..b.ofs] + b.held[b.ofs..];
      SameTail(b.consumed, b.delivered, b.held[b.last..b.ofs], b.held[b.ofs..]);
      EventsMonotone(ref.first, b.delivered, b.consumed);
    } else {
      var unseen, part := b.held[b.ofs..], b.held[b.ofs..b.last];
      assert unseen == part + b.held[b.last..];
      SameTail(b.delivered, b.consumed, part, b.held[b.last..]);
      assert ref.step(b.st, unseen) == PPStep(b.st, unseen);
      HeldBytesAreSilent(ref.first, b.consumed, unseen, part);
    }
  }

  /**
    Message isolation: while the processor is not asking for more, what the application has and may
    have next ends exactly where the processor's last unit ends; while it is asking, the application
    may have everything that has arrived, all of it at or past that point.
   */
  lemma MessageIsolation(b: Books, ref: Reference)
    requires Sound(b, ref)
    ensures !b.wantmore ==> b.delivered + b.held[b.last..b.last + b.tosend] == b.consumed
    ensures b.wantmore ==> b.delivered + b.held[b.last..b.last + b.tosend] == b.handed && b.consumed <= b.delivered
  {
    if b.wantmore {
      assert b.held[b.last..b.last + b.tosend] == b.held[b.last..];
      assert b.held[b.ofs..] == b.held[b.ofs..b.last] + b.held[b.last..];
      SameTail(b.delivered, b.consumed, b.held[b.ofs..b.last], b.held[b.last..]);
    } else {
      assert b.held[b.last..] == b.held[b.last..b.ofs] + b.held[b.ofs..];
      SameTail(b.consumed, b.delivered, b.held[b.last..b.ofs], b.held[b.ofs..]);
    }
  }

  /** The processor asks for more although it is shown a full buffer. */
  ghost predicate NeverSatisfied(st: PState, buf: seq<byte>) {
    match st
    case Psql(_, _, s) => PsqlWedged(s) || (s.todo > VBUFSIZE && s.mtype == CHAR_Q)
    case Xc(s) => s.success && s.setup > VBUFSIZE
    case Https(s) => !s.done && forall k | 0 <= k <= |CString(buf)| :: !(CRLFCRLF <= CString(buf)[k..])
    case _ => false
  }

  lemma FullBuffer(st: PState, buf: seq<byte>)
    requires Reachable(st) && |buf| == VBUFSIZE
    ensures PPStep(st, buf) == More <==> NeverSatisfied(st, buf)
  {
    FindExact(CString(buf), CRLFCRLF);
  }

  /**
    The operating system is asked for no bytes at all, which the application would take for an end
    of file, exactly when all 65536 bytes of the buffer are bytes the processor has not used; it then
    is one that those bytes do not satisfy.  For a processor that depends on the byte stream alone
    this is a matter of the bytes that have arrived, however they were cut and read.
   */
  lemma ZeroLengthRead(b: Books, ref: Reference)
    requires Sound(b, ref) && !b.Buffered()
    ensures b.Room() >= 0
    ensures b.Room() == 0 <==> |Unused(b.handed, b.consumed)| == 65536
    ensures b.Room() == 0 ==> NeverSatisfied(b.st, Unused(b.handed, b.consumed))
    ensures Streaming(ref.first) ==> (b.Room() == 0 <==> |Drain(ref.first, b.handed).rest| == 65536)
  {
    var unused := Unused(b.handed, b.consumed);
    UnusedIsHeld(b, ref);
    if unused != [] {
      assert ref.step(b.st, unused) == PPStep(b.st, unused);
      if |unused| == VBUFSIZE { FullBuffer(b.st, unused); }
    }
    if Streaming(ref.first) { RestIsUnused(b, ref); }
  }

  lemma RestIsUnused(b: Books, ref: Reference)
    requires Sound(b, ref) && !b.Buffered() && Streaming(ref.first)
    ensures Drain(ref.first, b.handed).rest == Unused(b.handed, b.consumed)
  {
    var unused := Unused(b.handed, b.consumed);
    UnusedIsHeld(b, ref);
    assert ref.drain(ref.first, b.consumed) == Drain(ref.first, b.consumed);
    assert b.consumed + unused == b.handed && [] + unused == unused;
    ChunkInvariance(ref.first, b.consumed, unused);
    if unused != [] { assert ref.step(b.st, unused) == PPStep(b.st, unused); }
  }

  // ------------------------------------------------------------------ a run that gets there

  /** One read that goes to the system and is handed `news`, by an application that takes all it may have. */
  ghost predicate ReadsAll(b: Books, ref: Reference, news: seq<byte>, after: Books) {
    && Sound(b, ref) && !b.Buffered() && news != [] && |news| <= b.Room()
    && var g := Grow(Shift(b), news);
       && 0 <= g.ofs <= |g.held|
       && var s := ref.step(g.st, g.held[g.ofs..]);
          && !s.Died? && (s.Took? ==> g.ofs + s.n <= |g.held|)
          && var p := Present(g, s);
             && 0 <= p.last && 0 <= p.tosend && p.last + p.tosend <= |p.held|
             && after == Deliver(p, p.tosend)
  }

  /** Where such a read leaves the processor and the application. */
  lemma ReadAll(b: Books, ref: Reference, news: seq<byte>) returns (after: Books)
    requires Sound(b, ref) && !b.Buffered() && news != [] && |news| <= b.Room()
    requires !Dies(ref, b.st, Unused(b.handed, b.consumed) + news)
    ensures ReadsAll(b, ref, news, after) && Sound(after, ref) && after.handed == b.handed + news
    ensures var shown := Unused(b.handed, b.consumed) + news;
            match ref.step(b.st, shown)
            case Took(n, next, _) =>
              && n <= |shown| && after.st == next && after.delivered == after.consumed == b.consumed + shown[..n]
              && (after.Buffered() <==> n < |shown|)
            case _ =>
              after.st == b.st && after.consumed == b.consumed && after.delivered == after.handed && !after.Buffered()
  {
    UnusedIsHeld(b, ref);
    ShiftSound(b, ref);
    GrowPending(Shift(b), ref, news);
    var g := Grow(Shift(b), news);
    UnusedIsHeld(Shift(b), ref);
    UnusedIsHeld(g, ref);
    assert g.held[g.ofs..] == Unused(b.handed, b.consumed) + news;
    PresentSound(g, ref);
    var p := Present(g, ref.step(g.st, g.held[g.ofs..]));
    DeliverSound(p, ref, p.tosend);
    after := Deliver(p, p.tosend);
    MessageIsolation(p, ref);
  }

  /** '1', ParseComplete: a message without a body. */
  const PARSE_COMPLETE: seq<byte> := [49, 0, 0, 0, 4]

  const Wedged := PsqlState(true, 49, true, 0, 0)

  lemma ParseCompleteWedges(bytes: seq<byte>)
    requires bytes != []
    ensures PPStep(Psql(Client, Read, PsqlInit(Client, Read)), PARSE_COMPLETE)
         == Took(5, Psql(Client, Read, Wedged), [PsqlHeader(49, 0)])
    ensures PPStep(Psql(Client, Read, Wedged), bytes) == More
  {
    var size: seq<byte> := [0, 0, 0, 4];
    assert PARSE_COMPLETE[1..5] == size;
  }

  /**
    A client is sent a message without a body and 65536 bytes more: two reads give the application
    every byte, and the next one asks the system for nothing.
   */
  lemma ZeroLengthReadHappens(ref: Reference, bytes: seq<byte>) returns (once: Books, twice: Books)
    requires Means(ref) && ref.first == Psql(Client, Read, PsqlInit(Client, Read)) && |bytes| == VBUFSIZE
    ensures ReadsAll(NoBooks(ref.first), ref, PARSE_COMPLETE, once) && ReadsAll(once, ref, bytes, twice)
    ensures !twice.Buffered() && twice.Room() == 0 && twice.delivered == PARSE_COMPLETE + bytes
  {
    ParseCompleteWedges(bytes);
    assert ref.step(ref.first, PARSE_COMPLETE) == PPStep(ref.first, PARSE_COMPLETE);
    once := ReadWhole(ref, PARSE_COMPLETE);
    twice := ReadFull(once, ref, bytes);
  }

  /** The first bytes of a stream, used whole. */
  lemma ReadWhole(ref: Reference, msg: seq<byte>) returns (after: Books)
    requires Means(ref) && IsInit(ref.first) && 0 < |msg| < VBUFSIZE
    requires ref.step(ref.first, msg).Took? && ref.step(ref.first, msg).n == |msg|
    ensures ReadsAll(NoBooks(ref.first), ref, msg, after) && Sound(after, ref) && !after.Buffered()
    ensures after.st == ref.step(ref.first, msg).next && after.handed == after.consumed == after.delivered == msg
  {
    FirstSound(ref);
    var b := NoBooks(ref.first);
    assert Unused(b.handed, b.consumed) + msg == msg && b.consumed + msg[..|msg|] == msg && b.handed + msg == msg;
    after := ReadAll(b, ref, msg);
  }

  /** A full buffer in front of a processor that wants more. */
  lemma ReadFull(b: Books, ref: Reference, bytes: seq<byte>) returns (after: Books)
    requires Sound(b, ref) && !b.Buffered() && b.handed == b.consumed && |bytes| == VBUFSIZE
    requires PPStep(b.st, bytes) == More
    ensures ReadsAll(b, ref, bytes, after) && !after.Buffered() && after.Room() == 0 && after.delivered == b.handed + bytes
  {
    NothingHeld(b, ref);
    assert ref.step(b.st, bytes) == PPStep(b.st, bytes);
    assert Unused(b.handed, b.consumed) + bytes == bytes;
    after := ReadAll(b, ref, bytes);
    assert Unused(after.handed, after.consumed) == bytes;
    ZeroLengthRead(after, ref);
  }

  /** With nothing held back the whole buffer is free. */
  lemma NothingHeld(b: Books, ref: Reference)
    requires Sound(b, ref) && !b.Buffered() && Unused(b.handed, b.consumed) == []
    ensures b.Room() == VBUFSIZE
  {
    UnusedIsHeld(b, ref);
  }
}
