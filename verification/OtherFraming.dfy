/** The X and FastCGI processors against their wire formats (section 3.3 of the FastCGI Specification 1.0). */
module OtherFraming {
  import opened Bytes
  import opened Protocols
  import opened ProtocolTheorems

  // ------------------------------------------------------------------ X

  /** The server's answer to a connection: success, three fields, and the length of what follows in 4-byte units. */
  function SetupReply(fields: seq<byte>, units: nat): seq<byte>
    requires |fields| == 5 && units < 0x1_0000
  {
    [1] + fields + [units % 256, units / 256]
  }

  lemma SetupRead(st: XState, fields: seq<byte>, units: nat, tail: seq<byte>)
    requires !st.success && |fields| == 5 && units < 0x1_0000
    ensures XStep(st, SetupReply(fields, units) + tail)
         == Took(8, XState(true, 4 * units, st.recvid + 1), [RequestBegin(4 * units), MsgRecv(Client, st.recvid)])
  {
    var buf := SetupReply(fields, units) + tail;
    var length: seq<byte> := [units % 256, units / 256];
    assert buf[6..8] == length && buf[0] == 1;
    assert Card16(length) == units;
  }

  /** Replies, events and errors of 32 bytes each are used one by one, and say nothing. */
  lemma {:induction false} UnitsRead(st: XState, units: seq<byte>, n: nat)
    requires st.success && st.setup == 0 && |units| == 32 * n
    ensures Drain(Xc(st), units) == Drained(true, Xc(st), [], [])
    decreases n
  {
    if n > 0 {
      DrainTook(Xc(st), units, 32, Xc(st), []);
      UnitsRead(st, units[32..], n - 1);
      PrependNothing(Drain(Xc(st), units[32..]));
    }
  }

  /** A whole X stream: one message is received, and every byte is used. */
  lemma XStreamFraming(fields: seq<byte>, k: nat, setup: seq<byte>, units: seq<byte>, n: nat)
    requires |fields| == 5 && |setup| == 4 * k && k < 0x1_0000 && |units| == 32 * n
    ensures Drain(Xc(XInit), SetupReply(fields, k) + (setup + units))
         == Drained(true, Xc(XState(true, 0, 1)), [], [RequestBegin(4 * k), MsgRecv(Client, 0)])
  {
    SetupRead(XInit, fields, k, setup + units);
    XStreamBehind(SetupReply(fields, k), setup, units, n);
  }

  lemma XStreamBehind(hello: seq<byte>, setup: seq<byte>, units: seq<byte>, n: nat)
    requires |hello| == 8 && |units| == 32 * n
    requires XStep(XInit, hello + (setup + units)) == Took(8, XState(true, |setup|, 1), [RequestBegin(|setup|), MsgRecv(Client, 0)])
    ensures Drain(Xc(XInit), hello + (setup + units))
         == Drained(true, Xc(XState(true, 0, 1)), [], [RequestBegin(|setup|), MsgRecv(Client, 0)])
  {
    var rest, events := setup + units, [RequestBegin(|setup|), MsgRecv(Client, 0)];
    assert (hello + rest)[8..] == rest;
    DrainTook(Xc(XInit), hello + rest, 8, Xc(XState(true, |setup|, 1)), events);
    SetupUsed(setup, units);
    UnitsRead(XState(true, 0, 1), units, n);
    assert events + [] == events;
  }

  lemma SetupUsed(setup: seq<byte>, units: seq<byte>)
    ensures Drain(Xc(XState(true, |setup|, 1)), setup + units) == Drain(Xc(XState(true, 0, 1)), units)
  {
    var ready := Xc(XState(true, 0, 1));
    if setup == [] {
      assert setup + units == units;
    } else {
      assert (setup + units)[|setup|..] == units;
      DrainTook(Xc(XState(true, |setup|, 1)), setup + units, |setup|, ready, []);
      PrependNothing(Drain(ready, units));
    }
  }

  // ------------------------------------------------------------------ FastCGI

  /** Version 1, type, request id and content length (most significant byte first), padding length, reserved. */
  function FcgiHeader(rtype: byte, id: nat, content: nat, padding: byte): seq<byte>
    requires id < 0x1_0000 && content < 0x1_0000
  {
    [1, rtype, id / 256, id % 256, content / 256, content % 256, padding, 0]
  }

  /** The state between records. */
  predicate Between(st: FcgiState) { !st.success && !st.done && !st.params }

  /**
    A record's header: begin-request (1), end-request (3) and stdout (6) are messages with the request
    id for their id; stdout ends the parsing, and only params (4) will have their body logged.
   */
  lemma FcgiHeaderRead(st: FcgiState, role: Role, dir: Direction, rtype: byte, id: nat, content: nat, padding: byte, tail: seq<byte>)
    requires Between(st) && id < 0x1_0000 && content < 0x1_0000
    ensures FcgiStep(st, role, dir, FcgiHeader(rtype, id, content, padding) + tail) ==
            Took(8, FcgiState(content + padding > 0, content, padding, rtype == 4, id, rtype == 6),
                 [FcgiRecord(rtype)] + (if rtype == 1 || rtype == 3 || rtype == 6
                                        then [if dir == Read then MsgRecv(role, id) else MsgSend(role, id)] else []))
  {
    var buf := FcgiHeader(rtype, id, content, padding) + tail;
    assert buf[..8] == FcgiHeader(rtype, id, content, padding);
  }

  /** A body that is all there is used in one call, and only that of params is logged. */
  lemma FcgiBodyRead(st: FcgiState, role: Role, dir: Direction, body: seq<byte>, tail: seq<byte>)
    requires st.success && !st.done && st.conlen >= 0 && st.padlen >= 0 && |body| == st.conlen + st.padlen > 0
    ensures var s := FcgiStep(st, role, dir, body + tail);
            && s.Took? && s.n == |body| && Between(s.next)
            && (!st.params ==> s.events == [])
            && (st.params && st.conlen >= 2 ==> s.events == [Property("PARAMS:", CString(body[2..st.conlen]))])
  {
    if st.conlen >= 2 { SliceOfFront(body, tail, 2, st.conlen); }
  }

  /** A part of a body is passed through and forgotten: the whole body is still expected. */
  lemma FcgiPartIsForgotten(st: FcgiState, role: Role, dir: Direction, part: seq<byte>)
    requires st.success && !st.done && 0 < |part| < st.conlen + st.padlen
    ensures FcgiStep(st, role, dir, part) == Took(|part|, st, [])
  {
  }

  /** Fresh processors are between records. */
  lemma FreshProcessors()
    ensures Between(FcgiInit) && !XInit.success && XInit.setup == 0 && XInit.recvid == 0
  {
  }
}
