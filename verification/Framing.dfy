/**
  The processors against the wire formats they are meant to follow: the "Message Formats" section
  of the PostgreSQL Frontend/Backend Protocol 3.0 and the MySQL client/server packet header.
 */
module Framing {
  import opened Bytes
  import opened Protocols
  import opened ProtocolTheorems

  // ------------------------------------------------------------------ PostgreSQL

  /** The startup packet: length (including itself), four protocol bytes, parameters. */
  datatype Startup = Startup(protocol: seq<byte>, params: seq<byte>)

  datatype Message = Message(mtype: byte, body: seq<byte>)

  function BigEndianBytes32(n: uint32): (s: seq<byte>)
    ensures |s| == 4
  {
    [n / 0x100_0000, n / 0x1_0000 % 256, n / 0x100 % 256, n % 256]
  }

  lemma BigEndianRoundTrip(n: uint32)
    ensures BigEndian32(BigEndianBytes32(n)) == n
  {
    var q := n / 0x100;
    assert n == q * 0x100 + n % 256;
    var p := q / 0x100;
    assert q == p * 0x100 + q % 256;
    assert p == n / 0x1_0000 && p / 0x100 == n / 0x100_0000;
  }

  predicate FitsStartup(s: Startup) { |s.protocol| == 4 && |s.params| + 8 < 0x1_0000_0000 }

  predicate Fits(m: Message) { |m.body| + 4 < 0x1_0000_0000 }

  function EncodeStartup(s: Startup): seq<byte>
    requires FitsStartup(s)
  {
    BigEndianBytes32(|s.params| + 8) + s.protocol + s.params
  }

  /** Type byte, length (including itself but not the type), body. */
  function Encode(m: Message): seq<byte>
    requires Fits(m)
  {
    [m.mtype] + BigEndianBytes32(|m.body| + 4) + m.body
  }

  function EncodeMessages(ms: seq<Message>): seq<byte>
    requires forall m | m in ms :: Fits(m)
  {
    if ms == [] then [] else Encode(ms[0]) + EncodeMessages(ms[1..])
  }

  /** What the log should say about a list of messages, given the next message id. */
  function MessageEvents(ms: seq<Message>, role: Role, dir: Direction, id: int): seq<Event>
    requires forall m | m in ms :: Fits(m)
  {
    if ms == [] then []
    else
      var m := ms[0];
      assert Fits(m);
      var message := PsqlMessage(m.mtype, role, dir, id);
      [PsqlHeader(m.mtype, |m.body|)] + message
      + (if m.mtype == CHAR_Q && m.body != [] then [Property("QUERY", CString(m.body))] else [])
      + MessageEvents(ms[1..], role, dir, id + |message|)
  }

  /**
    Queries ('Q', 81) are messages where the client sends and the server reads them, ready-for-query
    ('Z', 90) in the other direction, and no other type is a message on any side.
   */
  lemma WhichMessages(mtype: byte, role: Role, dir: Direction, id: int)
    ensures PsqlMessage(mtype, role, dir, id) ==
              if mtype == 81 && role == Client && dir == Write then [MsgSend(Client, id)]
              else if mtype == 81 && role == Server && dir == Read then [MsgRecv(Server, id)]
              else if mtype == 90 && role == Server && dir == Write then [MsgSend(Server, id)]
              else if mtype == 90 && role == Client && dir == Read then [MsgRecv(Client, id)]
              else []
  {
  }

  /** Only the client's writing side and the server's reading side expect a startup packet first. */
  lemma WhoSeesStartup(role: Role, dir: Direction)
    ensures PsqlInit(role, dir)
         == PsqlState(!((role == Client && dir == Write) || (role == Server && dir == Read)), 0, false, 0, 0)
  {
  }

  /** Every MySQL packet is a message, sent where it is written and received where it is read. */
  lemma EveryPacketIsAMessage(role: Role, id: int)
    ensures MysqlMessage(role, Write, id) == MsgSend(role, id) && MysqlMessage(role, Read, id) == MsgRecv(role, id)
    ensures MysqlInit == MysqlState(0, 0)
  {
  }

  predicate OnlyLastMayBeEmpty(ms: seq<Message>) {
    forall i | 0 <= i < |ms| - 1 :: ms[i].body != []
  }

  predicate Ready(s: PsqlState) { s.gotStartup && !s.gotHeader && s.todo == 0 }

  lemma HeaderOf(m: Message, tail: seq<byte>)
    requires Fits(m)
    ensures var buf := Encode(m) + tail;
            |buf| == 5 + |m.body| + |tail| && buf[0] == m.mtype && Sub32(BigEndian32(buf[1..5]), 4) == |m.body|
            && buf[5..] == m.body + tail
  {
    var buf := Encode(m) + tail;
    BigEndianRoundTrip(|m.body| + 4);
    assert buf[1..5] == BigEndianBytes32(|m.body| + 4);
  }

  /** The state a ready parser is in after the header of `m`. */
  function AfterHeader(s: PsqlState, m: Message, role: Role, dir: Direction): PsqlState
    requires Fits(m)
  {
    s.(mtype := m.mtype, gotHeader := true, todo := |m.body|, id := s.id + |PsqlMessage(m.mtype, role, dir, s.id)|)
  }

  lemma DrainHeader(s: PsqlState, role: Role, dir: Direction, m: Message, tail: seq<byte>)
    requires Ready(s) && Fits(m)
    ensures Drain(Psql(role, dir, s), Encode(m) + tail)
         == Prepend([PsqlHeader(m.mtype, |m.body|)] + PsqlMessage(m.mtype, role, dir, s.id),
                    Drain(Psql(role, dir, AfterHeader(s, m, role, dir)), m.body + tail))
  {
    HeaderOf(m, tail);
    DrainTook(Psql(role, dir, s), Encode(m) + tail, 5, Psql(role, dir, AfterHeader(s, m, role, dir)),
              [PsqlHeader(m.mtype, |m.body|)] + PsqlMessage(m.mtype, role, dir, s.id));
  }

  /** A body that is all there is used in one call. */
  lemma DrainBody(s: PsqlState, role: Role, dir: Direction, body: seq<byte>, tail: seq<byte>)
    requires s.todo == |body| && body != [] && s.gotStartup
    ensures Drain(Psql(role, dir, s), body + tail)
         == Prepend(if s.mtype == CHAR_Q then [Property("QUERY", CString(body))] else [],
                    Drain(Psql(role, dir, s.(todo := 0, gotHeader := false)), tail))
  {
    var buf := body + tail;
    assert buf[..s.todo] == body;
    assert buf[s.todo..] == tail;
    DrainTook(Psql(role, dir, s), buf, |body|, Psql(role, dir, s.(todo := 0, gotHeader := false)),
              if s.mtype == CHAR_Q then [Property("QUERY", CString(body))] else []);
  }

  lemma DrainMessage(s: PsqlState, role: Role, dir: Direction, m: Message, tail: seq<byte>)
    requires Ready(s) && Fits(m) && m.body != []
    ensures var next := AfterHeader(s, m, role, dir).(todo := 0, gotHeader := false);
            Drain(Psql(role, dir, s), Encode(m) + tail)
            == Prepend(MessageEvents([m], role, dir, s.id), Drain(Psql(role, dir, next), tail))
  {
    DrainHeader(s, role, dir, m, tail);
    DrainBody(AfterHeader(s, m, role, dir), role, dir, m.body, tail);
    var next := AfterHeader(s, m, role, dir).(todo := 0, gotHeader := false);
    var header := [PsqlHeader(m.mtype, |m.body|)] + PsqlMessage(m.mtype, role, dir, s.id);
    var query := if m.mtype == CHAR_Q then [Property("QUERY", CString(m.body))] else [];
    PrependTwice(header, query, Drain(Psql(role, dir, next), tail));
    assert MessageEvents([m], role, dir, s.id) == header + query;
  }

  /** The text of a query is logged, up to its NUL; that of no other message is. */
  lemma QueryTextIsLogged(s: PsqlState, role: Role, dir: Direction, m: Message, tail: seq<byte>)
    requires Ready(s) && Fits(m) && m.body != []
    ensures var message := PsqlMessage(m.mtype, role, dir, s.id);
            var text := if m.mtype == 81 then [Property("QUERY", CString(m.body))] else [];
            var next := s.(mtype := m.mtype, id := s.id + |message|);
            Drain(Psql(role, dir, s), Encode(m) + tail)
            == Prepend([PsqlHeader(m.mtype, |m.body|)] + message + text, Drain(Psql(role, dir, next), tail))
  {
    DrainMessage(s, role, dir, m, tail);
    EventsOfOne(m, role, dir, s.id);
    BackToReady(s, m, role, dir);
  }

  lemma EventsOfOne(m: Message, role: Role, dir: Direction, id: int)
    requires Fits(m) && m.body != []
    ensures MessageEvents([m], role, dir, id) == [PsqlHeader(m.mtype, |m.body|)] + PsqlMessage(m.mtype, role, dir, id)
              + if m.mtype == 81 then [Property("QUERY", CString(m.body))] else []
  {
  }

  lemma BackToReady(s: PsqlState, m: Message, role: Role, dir: Direction)
    requires Ready(s) && Fits(m)
    ensures AfterHeader(s, m, role, dir).(todo := 0, gotHeader := false)
         == s.(mtype := m.mtype, id := s.id + |PsqlMessage(m.mtype, role, dir, s.id)|)
  {
  }

  /** A wedged parser uses nothing and says nothing, whatever follows. */
  lemma WedgedForEver(s: PsqlState, role: Role, dir: Direction, tail: seq<byte>)
    ensures PsqlWedged(s) ==> Drain(Psql(role, dir, s), tail) == Drained(true, Psql(role, dir, s), tail, [])
  {
  }

  predicate KeepsUp(d: Drained, ms: seq<Message>, role: Role, dir: Direction, id: int)
    requires forall m | m in ms :: Fits(m)
  {
    && d.alive
    && (OnlyLastMayBeEmpty(ms) <==> d.rest == [])
    && (OnlyLastMayBeEmpty(ms) <==> d.events == MessageEvents(ms, role, dir, id))
  }

  /**
    On whole messages the parser keeps up with the framing, using every byte and logging exactly
    the events of those messages, if and only if no message but the last has an empty body.
   */
  lemma {:induction false} PsqlFraming(s: PsqlState, role: Role, dir: Direction, ms: seq<Message>)
    requires Ready(s) && forall m | m in ms :: Fits(m)
    ensures KeepsUp(Drain(Psql(role, dir, s), EncodeMessages(ms)), ms, role, dir, s.id)
    decreases |ms|
  {
    if ms != [] {
      assert ms[0] in ms;
      if ms[0].body == [] {
        EmptyFirst(s, role, dir, ms);
      } else {
        var next := AfterHeader(s, ms[0], role, dir).(todo := 0, gotHeader := false);
        var tail := EncodeMessages(ms[1..]);
        PsqlFraming(next, role, dir, ms[1..]);
        KeepsUpPrepend(Drain(Psql(role, dir, next), tail), ms, role, dir, s.id);
        DrainMessage(s, role, dir, ms[0], tail);
      }
    }
  }

  lemma EmptyFirst(s: PsqlState, role: Role, dir: Direction, ms: seq<Message>)
    requires Ready(s) && ms != [] && (forall m | m in ms :: Fits(m)) && ms[0].body == []
    ensures KeepsUp(Drain(Psql(role, dir, s), EncodeMessages(ms)), ms, role, dir, s.id)
  {
    var m, tail := ms[0], EncodeMessages(ms[1..]);
    assert m in ms;
    DrainHeader(s, role, dir, m, tail);
    assert m.body + tail == tail;
    WedgedForEver(AfterHeader(s, m, role, dir), role, dir, tail);
    EventsOfFirst(ms, role, dir, s.id);
    var head := MessageEvents([m], role, dir, s.id);
    assert Drain(Psql(role, dir, s), EncodeMessages(ms)).events == head;
    if |ms| > 1 {
      assert ms[1] in ms[1..] && |Encode(ms[1])| > 0;
      assert |MessageEvents(ms, role, dir, s.id)| > |head|;
    }
  }

  lemma KeepsUpPrepend(d: Drained, ms: seq<Message>, role: Role, dir: Direction, id: int)
    requires ms != [] && (forall m | m in ms :: Fits(m)) && ms[0].body != []
    requires KeepsUp(d, ms[1..], role, dir, id + |PsqlMessage(ms[0].mtype, role, dir, id)|)
    ensures KeepsUp(Prepend(MessageEvents([ms[0]], role, dir, id), d), ms, role, dir, id)
  {
    EventsOfFirst(ms, role, dir, id);
    OnlyLastTail(ms);
    var next := id + |PsqlMessage(ms[0].mtype, role, dir, id)|;
    Cancel(MessageEvents([ms[0]], role, dir, id), d.events, MessageEvents(ms[1..], role, dir, next));
  }

  lemma Cancel<T>(a: seq<T>, x: seq<T>, y: seq<T>)
    ensures a + x == a + y <==> x == y
  {
    assert (a + x)[|a|..] == x && (a + y)[|a|..] == y;
  }

  lemma EventsOfFirst(ms: seq<Message>, role: Role, dir: Direction, id: int)
    requires ms != [] && forall m | m in ms :: Fits(m)
    ensures MessageEvents(ms, role, dir, id) == MessageEvents([ms[0]], role, dir, id)
              + MessageEvents(ms[1..], role, dir, id + |PsqlMessage(ms[0].mtype, role, dir, id)|)
  {
  }

  lemma OnlyLastTail(ms: seq<Message>)
    requires ms != [] && ms[0].body != []
    ensures OnlyLastMayBeEmpty(ms) <==> OnlyLastMayBeEmpty(ms[1..])
  {
    if OnlyLastMayBeEmpty(ms[1..]) {
      forall i | 0 <= i < |ms| - 1 ensures ms[i].body != [] {
        if i > 0 { assert ms[i] == ms[1..][i - 1]; }
      }
    }
  }

  /** The same with the startup packet in front, on the two sides that see one. */
  lemma PsqlStreamFraming(role: Role, dir: Direction, startup: Startup, ms: seq<Message>)
    requires FitsStartup(startup) && forall m | m in ms :: Fits(m)
    requires !PsqlInit(role, dir).gotStartup
    ensures KeepsUp(Drain(Psql(role, dir, PsqlInit(role, dir)), EncodeStartup(startup) + EncodeMessages(ms)),
                    ms, role, dir, 0)
  {
    var ready := PsqlInit(role, dir).(gotStartup := true);
    PsqlFraming(ready, role, dir, ms);
    DrainStartup(role, dir, startup, EncodeMessages(ms));
  }

  lemma DrainStartup(role: Role, dir: Direction, startup: Startup, tail: seq<byte>)
    requires FitsStartup(startup) && !PsqlInit(role, dir).gotStartup
    ensures Drain(Psql(role, dir, PsqlInit(role, dir)), EncodeStartup(startup) + tail)
         == Drain(Psql(role, dir, PsqlInit(role, dir).(gotStartup := true)), tail)
  {
    var init := PsqlInit(role, dir);
    var buf := EncodeStartup(startup) + tail;
    var n := |startup.params|;
    BigEndianRoundTrip(n + 8);
    assert buf[0..4] == BigEndianBytes32(n + 8);
    var started := init.(gotStartup := true, todo := n);
    DrainTook(Psql(role, dir, init), buf, 8, Psql(role, dir, started), []);
    assert buf[8..] == startup.params + tail;
    var ready := started.(todo := 0, gotHeader := false);
    if n > 0 {
      DrainBody(started, role, dir, startup.params, tail);
      PrependNothing(Drain(Psql(role, dir, ready), tail));
    } else {
      assert startup.params + tail == tail;
    }
    PrependNothing(Drain(Psql(role, dir, started), startup.params + tail));
  }

  /** A Sync ('S', no body) followed by a query: the query is never seen. */
  lemma SyncHidesQuery(sql: seq<byte>)
    requires |sql| + 4 < 0x1_0000_0000
    ensures var ms := [Message(83, []), Message(CHAR_Q, sql)];
            var ready := PsqlState(true, 0, false, 0, 0);
            MsgRecv(Server, 0) in MessageEvents(ms, Server, Read, 0)
            && Drain(Psql(Server, Read, ready), EncodeMessages(ms)).events == [PsqlHeader(83, 0)]
  {
    var ms := [Message(83, []), Message(CHAR_Q, sql)];
    var ready := PsqlState(true, 0, false, 0, 0);
    var tail := EncodeMessages(ms[1..]);
    DrainHeader(ready, Server, Read, ms[0], tail);
    assert ms[0].body + tail == tail;
    WedgedForEver(AfterHeader(ready, ms[0], Server, Read), Server, Read, tail);
    assert MessageEvents(ms[1..], Server, Read, 0)[1] == MsgRecv(Server, 0);
    EventsOfFirst(ms, Server, Read, 0);
  }

  // ------------------------------------------------------------------ MySQL

  /** Three length bytes, least significant first, the packet number, the body. */
  datatype Packet = Packet(number: byte, body: seq<byte>)

  predicate FitsPacket(p: Packet) { |p.body| < 0x100_0000 }

  function EncodePacket(p: Packet): seq<byte>
    requires FitsPacket(p)
  {
    LittleEndian(|p.body|, 3) + [p.number] + p.body
  }

  function EncodePackets(ps: seq<Packet>): seq<byte>
    requires forall p | p in ps :: FitsPacket(p)
  {
    if ps == [] then [] else EncodePacket(ps[0]) + EncodePackets(ps[1..])
  }

  function PacketEvents(ps: seq<Packet>, role: Role, dir: Direction): seq<Event>
    requires forall p | p in ps :: FitsPacket(p)
  {
    if ps == [] then []
    else
      assert FitsPacket(ps[0]);
      [MysqlHeader(ps[0].number, |ps[0].body|), MysqlMessage(role, dir, ps[0].number)]
         + PacketEvents(ps[1..], role, dir)
  }

  /** No length byte reaches the sign bit. */
  predicate LengthIsPlain(p: Packet)
    requires FitsPacket(p)
  {
    forall b | b in LittleEndian(|p.body|, 3) :: b < 128
  }

  lemma PromotedBytes(c: byte)
    ensures var ones: byte := if c < 128 then 0 else 255;
            && Promoted(c, 0) == [c, ones, ones, ones]
            && Promoted(c, 1) == [0, c, ones, ones]
            && Promoted(c, 2) == [0, 0, c, ones]
  {
    Pow256Values();
    var ones: byte := if c < 128 then 0 else 255;
    WordBytes(Wrap(Signed8(c), 4), c, ones, ones, ones);
    WordBytes(Wrap(Signed8(c) * Pow256(1), 4), 0, c, ones, ones);
    WordBytes(Wrap(Signed8(c) * Pow256(2), 4), 0, 0, c, ones);
  }

  lemma WordBytes(n: nat, a: byte, b: byte, c: byte, d: byte)
    requires n == a as int + 0x100 * b as int + 0x1_0000 * c as int + 0x100_0000 * d as int
    ensures LittleEndian(n, 4) == [a, b, c, d] && FromLittleEndian([a, b, c, d]) == n
  {
    Pow256Values();
    var s: seq<byte> := [a, b, c, d];
    assert s[1..] == [b, c, d] && s[1..][1..] == [c, d] && s[1..][1..][1..] == [d];
    assert FromLittleEndian([d]) == d;
    assert FromLittleEndian([c, d]) == c + 0x100 * d as int;
    assert FromLittleEndian([b, c, d]) == b + 0x100 * (c + 0x100 * d as int);
    LittleEndianOfBytes(s);
  }

  /** A byte of 128 or more fills everything above it with ones. */
  lemma MysqlSizeCases(b: seq<byte>)
    requires |b| == 3
    ensures var c: seq<int> := b;
            MysqlSize(b) == (if c[0] >= 128 then 0xFFFF_FF00 + c[0]
                             else if c[1] >= 128 then 0xFFFF_0000 + c[1] * 0x100 + c[0]
                             else if c[2] >= 128 then 0xFF00_0000 + c[2] * 0x1_0000 + c[1] * 0x100 + c[0]
                             else c[2] * 0x1_0000 + c[1] * 0x100 + c[0])
  {
    var x, y, z := b[0], b[1], b[2];
    PromotedBytes(x);
    PromotedBytes(y);
    PromotedBytes(z);
    OrByteFacts(0); OrByteFacts(x); OrByteFacts(y); OrByteFacts(z); OrByteFacts(255);
    var word := OrBytes(OrBytes(Promoted(x, 0), Promoted(y, 1)), Promoted(z, 2));
    var ex: byte, ey: byte, ez: byte := if x < 128 then 0 else 255, if y < 128 then 0 else 255, if z < 128 then 0 else 255;
    assert word[0] == x;
    assert word[1] == if x < 128 then y else 255;
    assert word[2] == if x < 128 && y < 128 then z else 255;
    assert word[3] == if x < 128 && y < 128 && z < 128 then 0 else 255;
    assert word == [word[0], word[1], word[2], word[3]];
    WordBytes(word[0] + 0x100 * word[1] as int + 0x1_0000 * word[2] as int + 0x100_0000 * word[3] as int,
              word[0], word[1], word[2], word[3]);
  }

  /** The signed `char` arithmetic gives the length on the wire exactly when no byte is negative. */
  lemma MysqlSizeExact(n: nat)
    requires n < 0x100_0000
    ensures var b := LittleEndian(n, 3);
            && MysqlSize(b) >= n
            && (MysqlSize(b) == n <==> b[0] < 128 && b[1] < 128 && b[2] < 128)
            && (MysqlSize(b) != n ==> MysqlSize(b) >= 0xFF00_0000)
  {
    var b := LittleEndian(n, 3);
    MysqlSizeCases(b);
    assert b[1..] == LittleEndian(n / 256, 2);
    assert b[2..] == LittleEndian(n / 256 / 256, 1) == [n / 256 / 256 % 256] + LittleEndian(n / 256 / 256 / 256, 0);
    assert b[0] == n % 256 && b[1] == b[1..][0] == n / 256 % 256 && b[2] == b[2..][0] == n / 256 / 256;
    assert n == b[2] as int * 0x1_0000 + b[1] as int * 0x100 + b[0];
  }

  lemma DrainPacketHeader(s: MysqlState, role: Role, dir: Direction, p: Packet, tail: seq<byte>)
    requires s.todo == 0 && FitsPacket(p)
    ensures var size := MysqlSize(LittleEndian(|p.body|, 3));
            Drain(Mysql(role, dir, s), EncodePacket(p) + tail)
            == Prepend([MysqlHeader(p.number, size), MysqlMessage(role, dir, p.number)],
                    Drain(Mysql(role, dir, MysqlState(size, p.number)), p.body + tail))
  {
    var buf := EncodePacket(p) + tail;
    assert buf[0..3] == LittleEndian(|p.body|, 3) && buf[3] == p.number && buf[4..] == p.body + tail;
    var size := MysqlSize(LittleEndian(|p.body|, 3));
    DrainTook(Mysql(role, dir, s), buf, 4, Mysql(role, dir, MysqlState(size, p.number)),
              [MysqlHeader(p.number, size), MysqlMessage(role, dir, p.number)]);
  }

  lemma DrainPacketBody(s: MysqlState, role: Role, dir: Direction, body: seq<byte>, tail: seq<byte>)
    requires s.todo == |body|
    ensures Drain(Mysql(role, dir, s), body + tail) == Drain(Mysql(role, dir, s.(todo := 0)), tail)
  {
    if body == [] {
      assert body + tail == tail;
    } else {
      var next := Mysql(role, dir, s.(todo := 0));
      assert (body + tail)[|body|..] == tail;
      DrainTook(Mysql(role, dir, s), body + tail, |body|, next, []);
      PrependNothing(Drain(next, tail));
    }
  }

  lemma LengthIsPlainBytes(p: Packet)
    requires FitsPacket(p)
    ensures LengthIsPlain(p) <==> var b := LittleEndian(|p.body|, 3); b[0] < 128 && b[1] < 128 && b[2] < 128
  {
    var b := LittleEndian(|p.body|, 3);
    assert b[0] in b && b[1] in b && b[2] in b;
  }

  /** On whole packets the log is exactly right if and only if every length byte is below 128. */
  lemma {:induction false} MysqlFraming(s: MysqlState, role: Role, dir: Direction, ps: seq<Packet>)
    requires s.todo == 0 && forall p | p in ps :: FitsPacket(p)
    ensures Drain(Mysql(role, dir, s), EncodePackets(ps)).events == PacketEvents(ps, role, dir)
       <==> forall p | p in ps :: LengthIsPlain(p)
    decreases |ps|
  {
    if ps != [] {
      var p, rest := ps[0], ps[1..];
      var size := MysqlSize(LittleEndian(|p.body|, 3));
      var head := [MysqlHeader(p.number, size), MysqlMessage(role, dir, p.number)];
      DrainPacketHeader(s, role, dir, p, EncodePackets(rest));
      MysqlSizeExact(|p.body|);
      LengthIsPlainBytes(p);
      if size == |p.body| {
        var after := MysqlState(size, p.number);
        DrainPacketBody(after, role, dir, p.body, EncodePackets(rest));
        MysqlFraming(after.(todo := 0), role, dir, rest);
        assert ps == [p] + rest;
        var events := Drain(Mysql(role, dir, s), EncodePackets(ps)).events;
        assert events == head + Drain(Mysql(role, dir, after.(todo := 0)), EncodePackets(rest)).events;
        assert events[2..] == Drain(Mysql(role, dir, after.(todo := 0)), EncodePackets(rest)).events;
        assert PacketEvents(ps, role, dir)[2..] == PacketEvents(rest, role, dir);
      } else {
        assert Drain(Mysql(role, dir, s), EncodePackets(ps)).events[0] == MysqlHeader(p.number, size);
        assert p in ps && !LengthIsPlain(p);
      }
    }
  }

  /** After a misread length nothing more is logged for almost four gigabytes. */
  lemma MysqlMisreadLength(s: MysqlState, role: Role, dir: Direction, p: Packet, tail: seq<byte>)
    requires s.todo == 0 && FitsPacket(p) && !LengthIsPlain(p)
    requires |p.body| + |tail| < 0xFF00_0000
    ensures |Drain(Mysql(role, dir, s), EncodePacket(p) + tail).events| == 2
  {
    DrainPacketHeader(s, role, dir, p, tail);
    MysqlSizeExact(|p.body|);
    LengthIsPlainBytes(p);
    var size := MysqlSize(LittleEndian(|p.body|, 3));
    var buf := p.body + tail;
    if buf != [] {
      assert buf[|buf|..] == [];
      DrainTook(Mysql(role, dir, MysqlState(size, p.number)), buf, |buf|,
                Mysql(role, dir, MysqlState(size - |buf|, p.number)), []);
    }
  }
}
