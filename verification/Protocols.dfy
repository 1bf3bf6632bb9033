/**
  The protocol processors as step functions.

  A processor is handed the bytes at the front of a buffer.  It either asks for more, or says how
  many of them it used, moves to its next state and logs some events, or stops the process (a
  failed assertion).
 */
module Protocols {
  import opened Bytes

  datatype Role = Server | Client

  datatype Direction = Read | Write

  /** The log entries a processor makes.  `MsgSend` and `MsgRecv` are the ones the join uses. */
  datatype Event =
    | MsgSend(role: Role, id: int)
    | MsgRecv(role: Role, id: int)
    | PsqlHeader(mtype: byte, todo: uint32)
    | MysqlHeader(packet: int, size: uint32)
    | Property(name: string, text: seq<byte>)
    | HttpsRead(len: nat)
    | RequestBegin(setup: int)
    | FcgiRecord(rtype: byte)

  datatype Step<+S> =
    | More
    | Took(n: nat, next: S, events: seq<Event>)
    | Died

  // ------------------------------------------------------------------ PostgreSQL

  datatype PsqlState = PsqlState(gotStartup: bool, mtype: byte, gotHeader: bool, todo: uint32, id: int)

  const CHAR_Q: byte := 81
  const CHAR_Z: byte := 90

  /** The client writes a startup packet and the server reads it; the other two sides have none. */
  function PsqlInit(role: Role, dir: Direction): PsqlState {
    PsqlState((role == Client) == (dir == Read), 0, false, 0, 0)
  }

  /** Which MSG event a message of type `mtype` makes on this side, and whether it takes an id. */
  function PsqlMessage(mtype: byte, role: Role, dir: Direction, id: int): seq<Event> {
    if mtype == CHAR_Q then
      if role == Client && dir == Write then [MsgSend(Client, id)]
      else if role == Server && dir == Read then [MsgRecv(Server, id)]
      else []
    else if mtype == CHAR_Z then
      if role == Client && dir == Read then [MsgRecv(Client, id)]
      else if role == Server && dir == Write then [MsgSend(Server, id)]
      else []
    else []
  }

  function PsqlStep(st: PsqlState, role: Role, dir: Direction, buf: seq<byte>): Step<PsqlState> {
    if st.todo > 0 then
      if st.mtype == CHAR_Q && |buf| < st.todo then More
      else
        var used := if |buf| > st.todo then st.todo else |buf|;
        var left := st.todo - used;
        var events := if st.mtype == CHAR_Q then [Property("QUERY", CString(buf[..st.todo]))] else [];
        Took(used, st.(todo := left, gotHeader := st.gotHeader && left != 0), events)
    else if !st.gotStartup then
      if |buf| < 8 then More
      else Took(8, st.(gotStartup := true, todo := Sub32(BigEndian32(buf[0..4]), 8)), [])
    else if !st.gotHeader then
      if |buf| < 5 then More
      else
        var todo := Sub32(BigEndian32(buf[1..5]), 4);
        var message := PsqlMessage(buf[0], role, dir, st.id);
        Took(5, st.(mtype := buf[0], gotHeader := true, todo := todo, id := st.id + |message|),
             [PsqlHeader(buf[0], todo)] + message)
    else More
  }

  /** A header that announced an empty body: the parser waits for ever. */
  predicate PsqlWedged(st: PsqlState) {
    st.gotStartup && st.gotHeader && st.todo == 0
  }

  // ------------------------------------------------------------------ MySQL

  datatype MysqlState = MysqlState(todo: uint32, id: int)

  const MysqlInit := MysqlState(0, 0)

  /** A plain `char` promoted to `int` and shifted left by `k` bytes, as a 32-bit word. */
  function Promoted(c: byte, k: nat): (word: seq<byte>)
    ensures |word| == 4
  {
    LittleEndian(Wrap(Signed8(c) * Pow256(k), 4), 4)
  }

  /** The three length bytes, each promoted and shifted into place, combined with `|`. */
  function MysqlSize(b: seq<byte>): uint32
    requires |b| == 3
  {
    Pow256Values();
    FromLittleEndian(OrBytes(OrBytes(Promoted(b[0], 0), Promoted(b[1], 1)), Promoted(b[2], 2)))
  }

  function MysqlMessage(role: Role, dir: Direction, id: int): Event {
    if dir == Write then MsgSend(role, id) else MsgRecv(role, id)
  }

  function MysqlStep(st: MysqlState, role: Role, dir: Direction, buf: seq<byte>): Step<MysqlState> {
    if st.todo > 0 then
      var used := if |buf| > st.todo then st.todo else |buf|;
      Took(used, st.(todo := st.todo - used), [])
    else if |buf| < 4 then More
    else
      var todo, id := MysqlSize(buf[0..3]), buf[3];
      Took(4, MysqlState(todo, id), [MysqlHeader(id, todo), MysqlMessage(role, dir, id)])
  }

  // ------------------------------------------------------------------ HTTP, server side, reading

  datatype HttpsState = HttpsState(done: bool, awaitHeader: bool, version: int, seqno: int)

  const HttpsInit := HttpsState(false, true, -1, 0)

  const CRLFCRLF: seq<byte> := [13, 10, 13, 10]
  const HTTP_1_0: seq<byte> := [72, 84, 84, 80, 47, 49, 46, 48]
  const HTTP_1_1: seq<byte> := [72, 84, 84, 80, 47, 49, 46, 49]

  /** `strstr`: the first place `pat` occurs in `s`. */
  function Find(s: seq<byte>, pat: seq<byte>): (r: Option<nat>)
    ensures r.Some? ==> r.value + |pat| <= |s| && s[r.value..r.value + |pat|] == pat
  {
    if pat <= s then Some(0)
    else if s == [] then None
    else match Find(s[1..], pat) case None => None case Some(i) => Some(i + 1)
  }

  predicate IsDelimiter(b: byte) { b == 32 || b == 13 }

  /** `strtok(s, " \r")`: the next token and what is left after its delimiter; None when there is none. */
  function Token(s: seq<byte>): Option<(seq<byte>, seq<byte>)> {
    if s == [] then None
    else if IsDelimiter(s[0]) then Token(s[1..])
    else
      var n := TokenLength(s);
      Some((s[..n], if n < |s| then s[n + 1..] else []))
  }

  function TokenLength(s: seq<byte>): (n: nat)
    ensures n <= |s|
  {
    if s == [] || IsDelimiter(s[0]) then 0 else 1 + TokenLength(s[1..])
  }

  function TokenText(t: Option<(seq<byte>, seq<byte>)>): seq<byte> {
    if t.Some? then t.value.0 else [110, 117, 108, 108]  // "null"
  }

  function NextToken(t: Option<(seq<byte>, seq<byte>)>): Option<(seq<byte>, seq<byte>)> {
    if t.Some? then Token(t.value.1) else None
  }

  function HttpsEvents(seqno: int, len: nat, verb: seq<byte>, url: seq<byte>, version: seq<byte>): seq<Event> {
    [MsgRecv(Server, seqno), HttpsRead(len), Property("METHOD", verb), Property("URL", url), Property("VERSION", version)]
  }

  /** The whole header is here: it ends at `end` in `text`. */
  function HttpsHeader(seqno: int, len: nat, text: seq<byte>, end: nat): Step<HttpsState> {
    var verb := Token(text);
    var url := NextToken(verb);
    var version := NextToken(url);
    var events := HttpsEvents(seqno, len, TokenText(verb), TokenText(url), TokenText(version));
    if version.None? then Died
    else if Find(version.value.0, HTTP_1_0).Some? then Took(end + 4, HttpsState(true, false, 0, seqno + 1), events)
    else if Find(version.value.0, HTTP_1_1).Some? then Took(end + 4, HttpsState(false, true, 1, seqno + 1), events)
    else Died
  }

  function HttpsStep(st: HttpsState, buf: seq<byte>): Step<HttpsState> {
    if st.done then Took(|buf|, st, [])
    else if st.awaitHeader then
      match Find(CString(buf), CRLFCRLF)
      case None => More
      case Some(end) => HttpsHeader(st.seqno, |buf|, CString(buf), end)
    else Died
  }

  // ------------------------------------------------------------------ X, client side, reading

  datatype XState = XState(success: bool, setup: nat, recvid: int)

  const XInit := XState(false, 0, 0)

  function Card16(b: seq<byte>): nat
    requires |b| == 2
  {
    var c: seq<int> := b;
    c[1] * 256 + c[0]
  }

  function XStep(st: XState, buf: seq<byte>): Step<XState>
    requires buf != []
  {
    if !st.success then
      if buf[0] != 1 then Died
      else if |buf| < 8 then More
      else
        var setup := 4 * Card16(buf[6..8]);
        Took(8, XState(true, setup, st.recvid + 1), [RequestBegin(setup), MsgRecv(Client, st.recvid)])
    else if st.setup > 0 then
      if |buf| < st.setup then More else Took(st.setup, st.(setup := 0), [])
    else if |buf| < 32 then More
    else Took(32, st, [])
  }

  // ------------------------------------------------------------------ FastCGI

  datatype FcgiState = FcgiState(success: bool, conlen: int, padlen: int, params: bool, reqId: int, done: bool)

  const FcgiInit := FcgiState(false, 0, 0, false, -1, false)

  const FCGI_BEGIN_REQUEST: byte := 1
  const FCGI_END_REQUEST: byte := 3
  const FCGI_PARAMS: byte := 4
  const FCGI_STDOUT: byte := 6
  const FCGI_HEADER_LEN := 8

  function FcgiMessage(rtype: byte, role: Role, dir: Direction, id: int): seq<Event> {
    if rtype in {FCGI_BEGIN_REQUEST, FCGI_END_REQUEST, FCGI_STDOUT}
    then [if dir == Read then MsgRecv(role, id) else MsgSend(role, id)]
    else []
  }

  function FcgiStep(st: FcgiState, role: Role, dir: Direction, buf: seq<byte>): Step<FcgiState> {
    if st.done then Took(|buf|, st, [])
    else if !st.success then
      if |buf| < FCGI_HEADER_LEN then More
      else
        var h: seq<int> := buf[..8];
        var reqId, conlen, padlen := h[2] * 256 + h[3], h[4] * 256 + h[5], h[6];
        Took(8,
             FcgiState(conlen + padlen != 0, conlen, padlen, st.params || buf[1] == FCGI_PARAMS, reqId,
                       buf[1] == FCGI_STDOUT),
             [FcgiRecord(buf[1])] + FcgiMessage(buf[1], role, dir, reqId))
    else
      var toread := st.conlen + st.padlen;
      if toread <= 0 then Died
      else if |buf| >= toread then
        var events := if st.params
                      then [Property("PARAMS:", if 2 <= st.conlen <= toread then CString(buf[2..st.conlen]) else [])]
                      else [];
        Took(toread, FcgiState(false, -1, -1, false, -1, false), events)
      else Took(|buf|, st, [])
  }

  // ------------------------------------------------------------------ dispatch

  /** The state of the processor bound to one direction of a descriptor. */
  datatype PState =
    | Psql(role: Role, dir: Direction, psql: PsqlState)
    | Mysql(role: Role, dir: Direction, mysql: MysqlState)
    | Https(https: HttpsState)
    | Xc(xc: XState)
    | Fcgi(role: Role, dir: Direction, fcgi: FcgiState)
    | Trivial

  /** What holds of a processor's state in every run. */
  predicate Reachable(st: PState) {
    match st
    case Https(s) => s.done || s.awaitHeader
    case Fcgi(_, _, s) => s.success ==> s.conlen + s.padlen > 0
    case _ => true
  }

  predicate IsInit(st: PState) {
    match st
    case Psql(role, dir, s) => s == PsqlInit(role, dir)
    case Mysql(_, _, s) => s == MysqlInit
    case Https(s) => s == HttpsInit
    case Xc(s) => s == XInit
    case Fcgi(_, _, s) => s == FcgiInit
    case Trivial => true
  }

  function Lift<S>(r: Step<S>, f: S -> PState): Step<PState> {
    match r
    case More => More
    case Took(n, next, events) => Took(n, f(next), events)
    case Died => Died
  }

  /**
    One call of a processor.  Given at least one byte in a reachable state it asks for more, or
    uses at least one byte and no more than it was given, and its next state is reachable.
   */
  function PPStep(st: PState, buf: seq<byte>): (r: Step<PState>)
    requires Reachable(st) && buf != []
    ensures r.Took? ==> 0 < r.n <= |buf| && Reachable(r.next)
  {
    match st
    case Psql(role, dir, s) => Lift(PsqlStep(s, role, dir, buf), t => Psql(role, dir, t))
    case Mysql(role, dir, s) => Lift(MysqlStep(s, role, dir, buf), t => Mysql(role, dir, t))
    case Https(s) => Lift(HttpsStep(s, buf), t => Https(t))
    case Xc(s) => Lift(XStep(s, buf), t => Xc(t))
    case Fcgi(role, dir, s) => Lift(FcgiStep(s, role, dir, buf), t => Fcgi(role, dir, t))
    case Trivial => Took(|buf|, Trivial, [])
  }

  /** The outcome of calling a processor until it has used everything, wants more, or has died. */
  datatype Drained = Drained(alive: bool, next: PState, rest: seq<byte>, events: seq<Event>)

  function Drain(st: PState, buf: seq<byte>): (d: Drained)
    requires Reachable(st)
    ensures Reachable(d.next) && |d.rest| <= |buf|
    ensures d.alive ==> d.rest == [] || PPStep(d.next, d.rest) == More
    decreases |buf|
  {
    if buf == [] then Drained(true, st, [], [])
    else
      match PPStep(st, buf)
      case More => Drained(true, st, buf, [])
      case Died => Drained(false, st, buf, [])
      case Took(n, next, events) => Prepend(events, Drain(next, buf[n..]))
  }

  function Prepend(events: seq<Event>, d: Drained): Drained {
    d.(events := events + d.events)
  }

  /** More bytes arrive where an earlier run stopped. */
  function Resume(d: Drained, more: seq<byte>): Drained
    requires Reachable(d.next)
  {
    if d.alive then Prepend(d.events, Drain(d.next, d.rest + more))
    else d.(rest := d.rest + more)
  }

  /** The processors whose behaviour depends on the byte stream alone, not on how it was cut up. */
  predicate Streaming(st: PState) { st.Psql? || st.Mysql? || st.Xc? }

  /** The processors that never stop the process. */
  predicate Hardy(st: PState) { st.Psql? || st.Mysql? }
}
