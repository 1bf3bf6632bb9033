/** The two ends of one connection give the messages on it the same ids. */
module Endpoints {
  import opened Bytes
  import opened Protocols
  import opened ProtocolTheorems
  import opened Processors
  import opened References
  import opened ReadBooks
  import opened VirtualRead
  import opened VirtualWrite

  function Other(role: Role): Role { if role == Client then Server else Client }

  function SentIds(events: seq<Event>): seq<int> {
    if events == [] then []
    else (if events[0].MsgSend? then [events[0].id] else []) + SentIds(events[1..])
  }

  function ReceivedIds(events: seq<Event>): seq<int> {
    if events == [] then []
    else (if events[0].MsgRecv? then [events[0].id] else []) + ReceivedIds(events[1..])
  }

  lemma {:induction false} SentIdsAppend(a: seq<Event>, b: seq<Event>)
    ensures SentIds(a + b) == SentIds(a) + SentIds(b)
  {
    if a == [] {
      assert a + b == b;
    } else {
      assert (a + b)[1..] == a[1..] + b;
      SentIdsAppend(a[1..], b);
      Assoc(if a[0].MsgSend? then [a[0].id] else [], SentIds(a[1..]), SentIds(b));
    }
  }

  lemma {:induction false} ReceivedIdsAppend(a: seq<Event>, b: seq<Event>)
    ensures ReceivedIds(a + b) == ReceivedIds(a) + ReceivedIds(b)
  {
    if a == [] {
      assert a + b == b;
    } else {
      assert (a + b)[1..] == a[1..] + b;
      ReceivedIdsAppend(a[1..], b);
      Assoc(if a[0].MsgRecv? then [a[0].id] else [], ReceivedIds(a[1..]), ReceivedIds(b));
    }
  }

  /** Ids in the log entries of one call: at most a note and a message. */
  lemma IdsOfOneCall(events: seq<Event>)
    requires |events| <= 2 && (|events| == 2 ==> !events[0].MsgSend? && !events[0].MsgRecv?)
    ensures SentIds(events) == if events != [] && events[|events| - 1].MsgSend? then [events[|events| - 1].id] else []
    ensures ReceivedIds(events) == if events != [] && events[|events| - 1].MsgRecv? then [events[|events| - 1].id] else []
  {
    if |events| == 2 {
      assert events[1..] == [events[1]] && events[1..][1..] == [];
    }
  }

  /** The processor of the reader at the other end, in the same place in the stream. */
  function Mirror(writer: PState): PState
    requires writer.Psql? || writer.Mysql?
  {
    match writer
    case Psql(role, _, s) => Psql(Other(role), Read, s)
    case Mysql(role, _, s) => Mysql(Other(role), Read, s)
  }

  lemma MirrorPsql(role: Role, s: PsqlState, buf: seq<byte>)
    requires buf != []
    ensures match PsqlStep(s, role, Write, buf)
            case Took(n, next, events) =>
              var r := PsqlStep(s, Other(role), Read, buf);
              r.Took? && r.n == n && r.next == next && SentIds(events) == ReceivedIds(r.events)
            case More => PsqlStep(s, Other(role), Read, buf) == More
            case Died => false
  {
    var w, r := PsqlStep(s, role, Write, buf), PsqlStep(s, Other(role), Read, buf);
    if w.Took? {
      IdsOfOneCall(w.events);
      IdsOfOneCall(r.events);
    }
  }

  lemma MirrorMysql(role: Role, s: MysqlState, buf: seq<byte>)
    requires buf != []
    ensures match MysqlStep(s, role, Write, buf)
            case Took(n, next, events) =>
              var r := MysqlStep(s, Other(role), Read, buf);
              r.Took? && r.n == n && r.next == next && SentIds(events) == ReceivedIds(r.events)
            case More => MysqlStep(s, Other(role), Read, buf) == More
            case Died => false
  {
    var w, r := MysqlStep(s, role, Write, buf), MysqlStep(s, Other(role), Read, buf);
    if w.Took? {
      IdsOfOneCall(w.events);
      IdsOfOneCall(r.events);
    }
  }

  lemma MirrorStep(writer: PState, buf: seq<byte>)
    requires (writer.Psql? || writer.Mysql?) && writer.dir == Write && buf != []
    ensures var w, r := PPStep(writer, buf), PPStep(Mirror(writer), buf);
            match w
            case Took(n, next, events) =>
              && (next.Psql? || next.Mysql?) && next.dir == Write
              && r.Took? && r.n == n && r.next == Mirror(next) && SentIds(events) == ReceivedIds(r.events)
            case More => r == More
            case Died => false
  {
    match writer
    case Psql(role, _, s) => MirrorPsql(role, s, buf);
    case Mysql(role, _, s) => MirrorMysql(role, s, buf);
  }

  /** On the same bytes, the reader receives exactly the ids the writer sent. */
  lemma {:induction false} MirrorDrain(writer: PState, buf: seq<byte>)
    requires (writer.Psql? || writer.Mysql?) && writer.dir == Write
    ensures SentIds(Drain(writer, buf).events) == ReceivedIds(Drain(Mirror(writer), buf).events)
    decreases |buf|
  {
    if buf != [] {
      MirrorStep(writer, buf);
      match PPStep(writer, buf)
      case More =>
      case Took(n, next, events) =>
        var r := PPStep(Mirror(writer), buf);
        DrainTook(writer, buf, n, next, events);
        DrainTook(Mirror(writer), buf, n, r.next, r.events);
        MirrorDrain(next, buf[n..]);
        SentIdsAppend(events, Drain(next, buf[n..]).events);
        ReceivedIdsAppend(r.events, Drain(r.next, buf[n..]).events);
    }
  }

  lemma ReceivedIdsMonotone(a: seq<Event>, b: seq<Event>)
    requires a <= b
    ensures ReceivedIds(a) <= ReceivedIds(b)
  {
    ReceivedIdsAppend(a, b[|a|..]);
    assert a + b[|a|..] == b;
  }

  /** The two ends of a connection: the reader's bytes are ones the system accepted from the writer. */
  ghost predicate Connected(writer: WriteSide, reader: ReadSide, first: PState)
    reads writer, writer.wbuf, Footprint(writer.pp), reader, reader.rbuf, reader.kernel, Footprint(reader.pp)
  {
    && writer.Valid() && reader.Valid() && Hardy(first) && first.dir == Write
    && writer.ref.first == first && reader.ref.first == Mirror(first)
    && writer.written <= writer.wire && reader.kernel.handed <= writer.wire
  }

  /** What the two ends have logged is what the reference runs log on their parts of the stream. */
  lemma LoggedIds(writer: WriteSide, reader: ReadSide, first: PState)
    requires Connected(writer, reader, first)
    ensures SentIds(writer.wlog) == ReceivedIds(Drain(Mirror(first), writer.written).events)
    ensures ReceivedIds(reader.books.rlog) == ReceivedIds(Drain(Mirror(first), reader.books.consumed).events)
    ensures reader.books.consumed <= writer.wire
  {
    var b := reader.books;
    assert writer.ref.drain(first, writer.written) == Drain(first, writer.written);
    assert reader.ref.drain(Mirror(first), b.consumed) == Drain(Mirror(first), b.consumed);
    assert b.consumed <= b.handed <= writer.wire;
    MirrorDrain(first, writer.written);
  }

  /**
    Whatever the chunking at either end, and whether or not the bytes are well formed, the ids the
    two ends have logged are those of one list of messages, each from the first: one is a prefix of
    the other, so a message is known to both ends by the same id.
   */
  lemma EndpointAgreement(writer: WriteSide, reader: ReadSide, first: PState)
    requires Connected(writer, reader, first)
    ensures var sent, received := SentIds(writer.wlog), ReceivedIds(reader.books.rlog);
            var all := SentIds(Drain(first, writer.wire).events);
            && sent <= all && received <= all && (sent <= received || received <= sent)
  {
    LoggedIds(writer, reader, first);
    MirrorDrain(first, writer.wire);
    EventsMonotone(Mirror(first), writer.written, writer.wire);
    EventsMonotone(Mirror(first), reader.books.consumed, writer.wire);
    ReceivedIdsMonotone(Drain(Mirror(first), writer.written).events, Drain(Mirror(first), writer.wire).events);
    ReceivedIdsMonotone(Drain(Mirror(first), reader.books.consumed).events, Drain(Mirror(first), writer.wire).events);
  }

  /** The ids a reader's reference run receives from what it has used beyond `written`. */
  function ReceivedAhead(reader: PState, written: seq<byte>, consumed: seq<byte>): seq<int>
    requires Reachable(reader)
  {
    if written <= consumed then
      var d := Drain(reader, written);
      ReceivedIds(Drain(d.next, d.rest + consumed[|written|..]).events)
    else []
  }

  lemma ReceivedSplits(first: PState, written: seq<byte>, consumed: seq<byte>)
    requires Hardy(first) && written <= consumed
    ensures ReceivedIds(Drain(first, consumed).events)
         == ReceivedIds(Drain(first, written).events) + ReceivedAhead(first, written, consumed)
  {
    var past := consumed[|written|..];
    var d := Drain(first, written);
    assert written + past == consumed;
    NeverDies(first, written);
    ChunkInvariance(first, written, past);
    ReceivedIdsAppend(d.events, Drain(d.next, d.rest + past).events);
  }

  /**
    The system accepts bytes before the writer's processor sees them, and the other end may be
    faster: every message received has been logged as sent if and only if the reader has received
    none from bytes the writer's processor has not seen.
   */
  lemma ReceivedIsSent(writer: WriteSide, reader: ReadSide, first: PState)
    requires Connected(writer, reader, first)
    ensures ReceivedIds(reader.books.rlog) <= SentIds(writer.wlog)
       <==> ReceivedAhead(Mirror(first), writer.written, reader.books.consumed) == []
    ensures writer.written == writer.wire ==> ReceivedIds(reader.books.rlog) <= SentIds(writer.wlog)
  {
    LoggedIds(writer, reader, first);
    var written, consumed := writer.written, reader.books.consumed;
    if written <= consumed {
      ReceivedSplits(Mirror(first), written, consumed);
      if written == writer.wire { NothingAhead(Mirror(first), written); }
    } else {
      assert consumed <= written;
      EventsMonotone(Mirror(first), consumed, written);
      ReceivedIdsMonotone(Drain(Mirror(first), consumed).events, Drain(Mirror(first), written).events);
    }
  }

  lemma NothingAhead(first: PState, seen: seq<byte>)
    requires Hardy(first)
    ensures ReceivedAhead(first, seen, seen) == []
  {
    var d := Drain(first, seen);
    assert d.rest + seen[|seen|..] == d.rest;
    NeverDies(first, seen);
  }

  /** The header of 'Z', ReadyForQuery. */
  const READY: seq<byte> := [90, 0, 0, 0, 5]

  lemma ReadyIsReceived()
    ensures var s := PPStep(Psql(Client, Read, PsqlInit(Client, Read)), READY);
            s.Took? && s.n == 5 && ReceivedIds(s.events) == [0]
  {
    var size: seq<byte> := [0, 0, 0, 5];
    assert READY[1..5] == size;
    IdsOfOneCall(PPStep(Psql(Client, Read, PsqlInit(Client, Read)), READY).events);
  }

  /**
    The race: a server has given the system a ReadyForQuery that its own processor has not seen, and
    the client reads it: received, and not yet sent.
   */
  lemma ReceivedBeforeSent(first: PState, ref: Reference, msg: seq<byte>) returns (b: Books)
    requires first == Psql(Server, Write, PsqlInit(Server, Write)) && msg == READY
    requires Means(ref) && ref.first == Mirror(first)
    ensures ReadsAll(NoBooks(ref.first), ref, msg, b)
    ensures ReceivedIds(b.rlog) == [0] && SentIds(Drain(first, []).events) == []
  {
    ReadyIsReceived();
    b := ReadMessage(ref, msg);
  }

  /** A first message used whole. */
  lemma ReadMessage(ref: Reference, msg: seq<byte>) returns (b: Books)
    requires Means(ref) && IsInit(ref.first) && Streaming(ref.first) && 0 < |msg| < VBUFSIZE
    requires PPStep(ref.first, msg).Took? && PPStep(ref.first, msg).n == |msg|
    ensures ReadsAll(NoBooks(ref.first), ref, msg, b) && b.rlog == PPStep(ref.first, msg).events
  {
    var s := PPStep(ref.first, msg);
    assert ref.step(ref.first, msg) == s;
    b := ReadWhole(ref, msg);
    assert ref.drain(ref.first, msg) == Drain(ref.first, msg);
    DrainTook(ref.first, msg, s.n, s.next, s.events);
    assert msg[s.n..] == [];
  }

  /** The first states of the two ends of a PostgreSQL stream mirror each other, in both directions. */
  lemma PsqlEndsMirror(role: Role)
    ensures Mirror(Psql(role, Write, PsqlInit(role, Write)))
         == Psql(Other(role), Read, PsqlInit(Other(role), Read))
  {
  }

  lemma PsqlIdStep(role: Role, s: PsqlState, buf: seq<byte>)
    requires buf != []
    ensures match PPStep(Psql(role, Write, s), buf)
            case Took(n, next, events) =>
              next.Psql? && next.role == role && next.dir == Write
              && SentIds(events) == (if next.psql.id == s.id then [] else [s.id])
              && s.id <= next.psql.id <= s.id + 1
            case More => true
            case Died => false
  {
    match PPStep(Psql(role, Write, s), buf)
    case Took(n, next, events) => IdsOfOneCall(events);
    case More =>
  }

  /** PostgreSQL message ids count up from the first. */
  lemma {:induction false} PsqlIdsCount(role: Role, s: PsqlState, buf: seq<byte>)
    ensures var ids := SentIds(Drain(Psql(role, Write, s), buf).events);
            forall i | 0 <= i < |ids| :: ids[i] == s.id + i
    decreases |buf|
  {
    if buf != [] {
      PsqlIdStep(role, s, buf);
      match PPStep(Psql(role, Write, s), buf)
      case More =>
      case Took(n, next, events) =>
        DrainTook(Psql(role, Write, s), buf, n, next, events);
        PsqlIdsCount(role, next.psql, buf[n..]);
        SentIdsAppend(events, Drain(next, buf[n..]).events);
    }
  }
}
