/**
  The tracer and the join together: a message logged by the two ends of a connection is received for
  the request it was sent for.
 */
module Delivery {
  import opened Bytes
  import opened Tables
  import Protocols
  import Framing
  import Endpoints
  import VirtualRead
  import VirtualWrite
  import opened Join
  import opened JoinTheorems
  import opened Transfer

  /** The events of the log at `at` are sends of these ids on `c`, in order. */
  ghost predicate SendsAt(es: seq<Event>, www: string, c: Conn, at: seq<nat>, ids: seq<int>) {
    && |at| == |ids|
    && forall n | 0 <= n < |at| ::
         && at[n] < |es| && es[at[n]].what.MessageSend? && es[at[n]].what.msgid == ids[n]
         && Find(StateAt(es, at[n], www).fds, (es[at[n]].pid, es[at[n]].what.mfd)) == Some(c)
  }

  ghost predicate ReceivesAt(es: seq<Event>, www: string, c: Conn, at: seq<nat>, ids: seq<int>) {
    && |at| == |ids|
    && forall n | 0 <= n < |at| ::
         && at[n] < |es| && es[at[n]].what.MessageRecv? && es[at[n]].what.msgid == ids[n]
         && Find(StateAt(es, at[n], www).fds, (es[at[n]].pid, es[at[n]].what.mfd)) == Some(c)
  }

  /** The request of the thread whose event this is, before it. */
  function RequestBefore(es: seq<Event>, i: nat, www: string): int
    requires i < |es|
  {
    DgnGet(StateAt(es, i, www).dgn, es[i].Who())
  }

  function RequestAfter(es: seq<Event>, i: nat, www: string): int
    requires i < |es|
  {
    DgnGet(StateAt(es, i + 1, www).dgn, es[i].Who())
  }

  /** The event sends message `id` on `c`, at whichever end. */
  predicate SendsOn(es: seq<Event>, m: nat, www: string, c: Conn, id: int)
    requires m < |es|
  {
    && es[m].what.MessageSend? && es[m].what.msgid == id
    && Find(StateAt(es, m, www).fds, (es[m].pid, es[m].what.mfd)) == Some(c)
  }

  /** The last send of `id` on `c` before event `j`, or event `i` if there is none after it. */
  function LastSend(es: seq<Event>, i: nat, j: nat, www: string, c: Conn, id: int): (k: nat)
    requires i < j <= |es|
    ensures i <= k < j && (k == i || SendsOn(es, k, www, c, id))
    ensures forall m | k < m < j :: !SendsOn(es, m, www, c, id)
    decreases j
  {
    if j - 1 == i || SendsOn(es, j - 1, www, c, id) then j - 1 else LastSend(es, i, j - 1, www, c, id)
  }

  /** Whatever else happens between two events, only sends take the slot over. */
  ghost predicate OnlySends(es: seq<Event>, i: nat, j: nat, www: string, c: Conn, id: int)
    requires j <= |es|
  {
    forall m | i < m < j :: Disturbs(StateAt(es, m, www), es[m], c, id) ==> SendsOn(es, m, www, c, id)
  }

  /**
    A message is received for the request of the last one sent with its id on its connection, in
    either direction: so for the request it was sent for if and only if that is the same request.
   */
  lemma ArrivesIffLastIsForTheSame(es: seq<Event>, i: nat, j: nat, www: string, c: Conn, id: int)
    requires i < j < |es| && SendsOn(es, i, www, c, id) && OnlySends(es, i, j, www, c, id) && !Distinguished(c, www)
    requires es[j].what.MessageRecv? && es[j].what.msgid == id
    requires Find(StateAt(es, j, www).fds, (es[j].pid, es[j].what.mfd)) == Some(c)
    ensures var k := LastSend(es, i, j, www, c, id);
            && RequestAfter(es, j, www) == RequestBefore(es, k, www)
            && (RequestAfter(es, j, www) == RequestBefore(es, i, www) <==> RequestBefore(es, k, www) == RequestBefore(es, i, www))
  {
    var k := LastSend(es, i, j, www, c, id);
    CausalTransfer(es, k, j, www, es[k].what.mfd, es[j].what.mfd, id, c);
  }

  /**
    The two ends of a psql or mysql connection, however their streams were cut, and the log their
    events ended up in, when the `n`th message was logged as sent before it was logged as received:
    both ends have it by the same id, and it is received for the request of the last message sent
    with that id.
   */
  lemma MessageArrives(writer: VirtualWrite.WriteSide, reader: VirtualRead.ReadSide, first: Protocols.PState,
                       es: seq<Event>, www: string, c: Conn, sent: seq<nat>, received: seq<nat>, n: nat)
    requires Endpoints.Connected(writer, reader, first)
    requires SendsAt(es, www, c, sent, Endpoints.SentIds(writer.wlog))
    requires ReceivesAt(es, www, c, received, Endpoints.ReceivedIds(reader.books.rlog))
    requires n < |received| && n < |sent| && sent[n] < received[n] && !Distinguished(c, www)
    requires OnlySends(es, sent[n], received[n], www, c, es[sent[n]].what.msgid)
    ensures var i, j, id := sent[n], received[n], es[sent[n]].what.msgid;
            var k := LastSend(es, i, j, www, c, id);
            && es[j].what.msgid == id && RequestAfter(es, j, www) == RequestBefore(es, k, www)
            && (RequestAfter(es, j, www) == RequestBefore(es, i, www) <==> RequestBefore(es, k, www) == RequestBefore(es, i, www))
  {
    Endpoints.EndpointAgreement(writer, reader, first);
    ArrivesIffLastIsForTheSame(es, sent[n], received[n], www, c, es[sent[n]].what.msgid);
  }

  /**
    On a PostgreSQL stream no id is used twice: the writer's own messages never take a slot over, only
    ones of the other direction can.
   */
  lemma PsqlMessageArrives(writer: VirtualWrite.WriteSide, reader: VirtualRead.ReadSide, first: Protocols.PState,
                           es: seq<Event>, www: string, c: Conn, sent: seq<nat>, received: seq<nat>, n: nat)
    requires Endpoints.Connected(writer, reader, first) && Protocols.IsInit(first) && first.Psql?
    requires SendsAt(es, www, c, sent, Endpoints.SentIds(writer.wlog))
    requires ReceivesAt(es, www, c, received, Endpoints.ReceivedIds(reader.books.rlog))
    requires n < |received| && n < |sent| && sent[n] < received[n] && !Distinguished(c, www)
    requires OnlySends(es, sent[n], received[n], www, c, es[sent[n]].what.msgid)
    ensures es[received[n]].what.msgid == n
    ensures var k := LastSend(es, sent[n], received[n], www, c, n);
            && (k == sent[n] || k !in sent)
            && RequestAfter(es, received[n], www) == RequestBefore(es, k, www)
  {
    var ids, ids' := Endpoints.SentIds(writer.wlog), Endpoints.ReceivedIds(reader.books.rlog);
    IdsAreCounted(writer, first);
    Endpoints.EndpointAgreement(writer, reader, first);
    CountedArrives(es, www, c, sent, ids, received, ids', n);
  }

  predicate Counted(ids: seq<int>) { forall i | 0 <= i < |ids| :: ids[i] == i }

  lemma CountedArrives(es: seq<Event>, www: string, c: Conn, sent: seq<nat>, ids: seq<int>,
                       received: seq<nat>, ids': seq<int>, n: nat)
    requires SendsAt(es, www, c, sent, ids) && ReceivesAt(es, www, c, received, ids')
    requires Counted(ids) && (ids <= ids' || ids' <= ids)
    requires n < |received| && n < |sent| && sent[n] < received[n] && !Distinguished(c, www)
    requires OnlySends(es, sent[n], received[n], www, c, es[sent[n]].what.msgid)
    ensures es[received[n]].what.msgid == n
    ensures var k := LastSend(es, sent[n], received[n], www, c, n);
            && (k == sent[n] || k !in sent)
            && RequestAfter(es, received[n], www) == RequestBefore(es, k, www)
  {
    OwnSendsDiffer(es, www, c, sent, ids, n, received[n]);
    ArrivesIffLastIsForTheSame(es, sent[n], received[n], www, c, n);
  }

  /** Sends numbered 0, 1, 2, .. do not take each other's slots. */
  lemma OwnSendsDiffer(es: seq<Event>, www: string, c: Conn, sent: seq<nat>, ids: seq<int>, n: nat, j: nat)
    requires SendsAt(es, www, c, sent, ids) && Counted(ids)
    requires n < |sent| && sent[n] < j <= |es|
    ensures es[sent[n]].what.msgid == n
    ensures var k := LastSend(es, sent[n], j, www, c, n); k == sent[n] || k !in sent
  {
    var k := LastSend(es, sent[n], j, www, c, n);
    if k in sent {
      var m :| 0 <= m < |sent| && sent[m] == k;
      assert es[sent[m]].what.msgid == ids[m] == m;
    }
  }

  lemma IdsAreCounted(writer: VirtualWrite.WriteSide, first: Protocols.PState)
    requires writer.Valid() && writer.ref.first == first
    requires Protocols.IsInit(first) && first.Psql? && first.dir == Protocols.Write
    ensures Counted(Endpoints.SentIds(writer.wlog))
  {
    assert writer.ref.drain(first, writer.written) == Protocols.Drain(first, writer.written);
    Endpoints.PsqlIdsCount(first.role, first.psql, writer.written);
  }

  // ------------------------------------------------------------------ ids that repeat

  /** MySQL numbers packets anew with every command: two commands, one id. */
  lemma MysqlIdsRepeat(number: byte, a: seq<byte>, b: seq<byte>)
    requires |a| < 128 && |b| < 128
    ensures var ps := [Framing.Packet(number, a), Framing.Packet(number, b)];
            (forall p | p in ps :: Framing.FitsPacket(p))
            && Endpoints.SentIds(Protocols.Drain(Protocols.Mysql(Protocols.Client, Protocols.Write, Protocols.MysqlInit),
                                                 Framing.EncodePackets(ps)).events) == [number, number]
  {
    var ps := [Framing.Packet(number, a), Framing.Packet(number, b)];
    PlainLength(ps[0]);
    PlainLength(ps[1]);
    Framing.MysqlFraming(Protocols.MysqlInit, Protocols.Client, Protocols.Write, ps);
    TwoPackets(ps);
  }

  lemma PlainLength(p: Framing.Packet)
    requires |p.body| < 128
    ensures Framing.FitsPacket(p) && Framing.LengthIsPlain(p)
  {
    Framing.LengthIsPlainBytes(p);
    var b := LittleEndian(|p.body|, 3);
    assert b[1..] == LittleEndian(0, 2) && b[2..] == b[1..][1..] == LittleEndian(0, 1);
  }

  lemma TwoPackets(ps: seq<Framing.Packet>)
    requires |ps| == 2 && forall p | p in ps :: Framing.FitsPacket(p)
    ensures Endpoints.SentIds(Framing.PacketEvents(ps, Protocols.Client, Protocols.Write)) == [ps[0].number, ps[1].number]
  {
    var one, two := OnePacket(ps[0]), OnePacket(ps[1]);
    assert ps[1..] == [ps[1]];
    assert Framing.PacketEvents([], Protocols.Client, Protocols.Write) == [];
    assert Framing.PacketEvents(ps[1..], Protocols.Client, Protocols.Write) == two + [];
    assert Framing.PacketEvents(ps, Protocols.Client, Protocols.Write) == one + (two + []);
    Endpoints.SentIdsAppend(one, two + []);
    Endpoints.SentIdsAppend(two, []);
    Endpoints.IdsOfOneCall(one);
    Endpoints.IdsOfOneCall(two);
  }

  function OnePacket(p: Framing.Packet): seq<Protocols.Event>
    requires Framing.FitsPacket(p)
  {
    [Protocols.MysqlHeader(p.number, |p.body|), Protocols.MysqlMessage(Protocols.Client, Protocols.Write, p.number)]
  }

  /** A second message with the same id is sent, for no request, before the first is received. */
  function SameIdTwice(www: string, second: Event): seq<Event> {
    FrontToBack(www)[..4] + [Event(1, 1, MessageSend(4, 7)), second, Event(2, 2, MessageRecv(3, 7))]
  }

  lemma SlotTakenOver(www: string, second: Event, fd: int)
    requires www != [] && second.what == MessageSend(fd, 7) && second.Who() != Mid(1, 1)
    requires (second.pid, fd) == (1, 4) || (second.pid, fd) == (2, 3)
    ensures var es := SameIdTwice(www, second);
            RequestBefore(es, 4, www) == 1 && RequestBefore(es, 5, www) == NONE && RequestAfter(es, 6, www) == NONE
  {
    var es := SameIdTwice(www, second);
    FrontReady(www);
    SamePrefix(es, FrontToBack(www), 4, www);
    var x := StateAt(es, 4, www);
    assert StateAt(es, 5, www) == Step(x, es[4], www);
    assert Step(x, es[4], www).fds == x.fds && Step(x, es[4], www).dgn == x.dgn;
    assert StateAt(es, 6, www) == Step(StateAt(es, 5, www), es[5], www);
    assert Step(StateAt(es, 5, www), es[5], www).fds == x.fds;
    CausalTransfer(es, 5, 6, www, fd, 3, 7, HostPort(""));
  }

  /** Two threads of the front end, as over MySQL: the first message is received for the second one's request. */
  lemma RepeatedIdIsMisattributed(www: string)
    requires www != []
    ensures var es := SameIdTwice(www, Event(1, 2, MessageSend(4, 7)));
            RequestBefore(es, 4, www) == 1 && RequestBefore(es, 5, www) == NONE && RequestAfter(es, 6, www) == NONE
  {
    SlotTakenOver(www, Event(1, 2, MessageSend(4, 7)), 4);
  }

  /**
    Both directions of a connection share its slots: an answer numbered 7 that the back end sends
    before it has received query 7 takes the query's request away, as with pipelined PostgreSQL queries.
   */
  lemma AnswerTakesQuerysSlot(www: string)
    requires www != []
    ensures var es := SameIdTwice(www, Event(2, 2, MessageSend(3, 7)));
            RequestBefore(es, 4, www) == 1 && RequestBefore(es, 5, www) == NONE && RequestAfter(es, 6, www) == NONE
  {
    SlotTakenOver(www, Event(2, 2, MessageSend(3, 7)), 3);
  }
}
