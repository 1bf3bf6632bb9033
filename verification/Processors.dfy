/** The processors as the source runs them: records updated in place, logging as they go. */
module Processors {
  import opened Bytes
  import opened Protocols

  /** Where LOGBIN calls go. */
  class EventLog {
    var entries: seq<Event>

    constructor ()
      ensures entries == []
    {
      entries := [];
    }

    method Append(e: Event)
      modifies this
      ensures entries == old(entries) + [e]
    {
      entries := entries + [e];
    }
  }

  /** A call returned `r` (or stopped the process), taking the state from `pre` to `post`. */
  ghost predicate Did<S>(step: Step<S>, r: int, aborted: bool, pre: S, post: S, before: seq<Event>, after: seq<Event>) {
    match step
    case More => !aborted && r == -1 && post == pre && after == before
    case Took(n, next, events) => !aborted && r == n && post == next && after == before + events
    case Died => aborted
  }

  class PsqlSide {
    const role: Role
    const dir: Direction
    var gotStartup: bool
    var mtype: byte
    var gotHeader: bool
    var todo: uint32
    var id: int

    function State(): PsqlState
      reads this
    {
      PsqlState(gotStartup, mtype, gotHeader, todo, id)
    }

    constructor (role: Role, dir: Direction)
      ensures this.role == role && this.dir == dir && State() == PsqlInit(role, dir)
    {
      this.role, this.dir := role, dir;
      gotStartup, gotHeader, todo, mtype, id := (role == Client) == (dir == Read), false, 0, 0, 0;
    }

    method Speak(buf: seq<byte>, log: EventLog) returns (r: int)
      modifies this, log
      ensures Did(PsqlStep(old(State()), role, dir, buf), r, false, old(State()), State(),
                  old(log.entries), log.entries)
    {
      if todo > 0 {
        if mtype == CHAR_Q {
          if |buf| < todo { return -1; }
          log.Append(Property("QUERY", CString(buf[..todo])));
        }
        var used := if |buf| > todo then todo else |buf|;
        todo := todo - used;
        if todo == 0 { gotHeader := false; }
        return used;
      }
      if !gotStartup {
        if |buf| < 8 { return -1; }
        gotStartup := true;
        todo := Sub32(BigEndian32(buf[0..4]), 8);
        return 8;
      }
      if !gotHeader {
        if |buf| < 5 { return -1; }
        mtype := buf[0];
        gotHeader := true;
        todo := Sub32(BigEndian32(buf[1..5]), 4);
        log.Append(PsqlHeader(mtype, todo));
        if mtype == CHAR_Q {
          if role == Client && dir == Write {
            log.Append(MsgSend(Client, id));
            id := id + 1;
          } else if role == Server && dir == Read {
            log.Append(MsgRecv(Server, id));
            id := id + 1;
          }
        } else if mtype == CHAR_Z {
          if role == Client && dir == Read {
            log.Append(MsgRecv(Client, id));
            id := id + 1;
          } else if role == Server && dir == Write {
            log.Append(MsgSend(Server, id));
            id := id + 1;
          }
        }
        return 5;
      }
      return -1;
    }
  }

  class MysqlSide {
    const role: Role
    const dir: Direction
    var todo: uint32
    var id: int

    function State(): MysqlState
      reads this
    {
      MysqlState(todo, id)
    }

    constructor (role: Role, dir: Direction)
      ensures this.role == role && this.dir == dir && State() == MysqlInit
    {
      this.role, this.dir, todo, id := role, dir, 0, 0;
    }

    method Speak(buf: seq<byte>, log: EventLog) returns (r: int)
      modifies this, log
      ensures Did(MysqlStep(old(State()), role, dir, buf), r, false, old(State()), State(),
                  old(log.entries), log.entries)
    {
      if todo > 0 {
        var used := if |buf| > todo then todo else |buf|;
        todo := todo - used;
        return used;
      }
      if |buf| < 4 { return -1; }
      todo := MysqlSize(buf[0..3]);
      id := buf[3];
      log.Append(MysqlHeader(id, todo));
      match dir {
        case Write => log.Append(MsgSend(role, id));
        case Read => log.Append(MsgRecv(role, id));
      }
      return 4;
    }
  }

  class HttpsSide {
    var done: bool
    var awaitHeader: bool
    var version: int
    var seqno: int

    function State(): HttpsState
      reads this
    {
      HttpsState(done, awaitHeader, version, seqno)
    }

    constructor ()
      ensures State() == HttpsInit
    {
      done, awaitHeader, version, seqno := false, true, -1, 0;
    }

    /** The header is here: log what it says. */
    method ReadHeader(len: nat, text: seq<byte>, end: nat, log: EventLog) returns (r: int, aborted: bool)
      requires !done
      modifies this, log
      ensures Did(HttpsHeader(old(seqno), len, text, end), r, aborted, old(State()), State(), old(log.entries), log.entries)
    {
      awaitHeader := false;
      log.Append(MsgRecv(Server, seqno));
      seqno := seqno + 1;
      log.Append(HttpsRead(len));
      var verb := Token(text);
      log.Append(Property("METHOD", TokenText(verb)));
      var url := NextToken(verb);
      log.Append(Property("URL", TokenText(url)));
      var ver := NextToken(url);
      log.Append(Property("VERSION", TokenText(ver)));
      if ver.None? {
        return -1, true;
      } else if Find(ver.value.0, HTTP_1_0).Some? {
        version := 0;
        done := true;
      } else if Find(ver.value.0, HTTP_1_1).Some? {
        version := 1;
        awaitHeader := true;
      } else {
        return -1, true;
      }
      return end + 4, false;
    }

    method Read(buf: seq<byte>, log: EventLog) returns (r: int, aborted: bool)
      modifies this, log
      ensures Did(HttpsStep(old(State()), buf), r, aborted, old(State()), State(), old(log.entries), log.entries)
    {
      if done { return |buf|, false; }
      if awaitHeader {
        var end := Find(CString(buf), CRLFCRLF);
        if end.None? { return -1, false; }
        r, aborted := ReadHeader(|buf|, CString(buf), end.value, log);
        return;
      }
      return -1, true;
    }
  }

  class XSide {
    var success: bool
    var setup: nat
    var recvid: int

    function State(): XState
      reads this
    {
      XState(success, setup, recvid)
    }

    constructor ()
      ensures State() == XInit
    {
      success, setup, recvid := false, 0, 0;
    }

    method Read(buf: seq<byte>, log: EventLog) returns (r: int, aborted: bool)
      requires buf != []
      modifies this, log
      ensures Did(XStep(old(State()), buf), r, aborted, old(State()), State(), old(log.entries), log.entries)
    {
      if !success {
        if buf[0] != 1 { return -1, true; }
        if |buf| < 8 { return -1, false; }
        success := true;
        setup := 4 * Card16(buf[6..8]);
        log.Append(RequestBegin(setup));
        log.Append(MsgRecv(Client, recvid));
        recvid := recvid + 1;
        return 8, false;
      }
      if setup > 0 {
        if |buf| < setup { return -1, false; }
        var ret := setup;
        setup := 0;
        return ret, false;
      }
      if |buf| < 32 { return -1, false; }
      return 32, false;
    }
  }

  class FcgiSide {
    const role: Role
    const dir: Direction
    var success: bool
    var conlen: int
    var padlen: int
    var params: bool
    var reqId: int
    var done: bool

    function State(): FcgiState
      reads this
    {
      FcgiState(success, conlen, padlen, params, reqId, done)
    }

    constructor (role: Role, dir: Direction)
      ensures this.role == role && this.dir == dir && State() == FcgiInit
    {
      this.role, this.dir := role, dir;
      success, conlen, padlen, params, reqId, done := false, 0, 0, false, -1, false;
    }

    method Speak(buf: seq<byte>, log: EventLog) returns (r: int, aborted: bool)
      modifies this, log
      ensures Did(FcgiStep(old(State()), role, dir, buf), r, aborted, old(State()), State(),
                  old(log.entries), log.entries)
    {
      if done { return |buf|, false; }
      if !success {
        if |buf| < FCGI_HEADER_LEN { return -1, false; }
        success := true;
        var h: seq<int> := buf[..8];
        reqId := h[2] * 256 + h[3];
        conlen := h[4] * 256 + h[5];
        padlen := h[6];
        if conlen + padlen == 0 { success := false; }
        var rtype := buf[1];
        if rtype == FCGI_PARAMS { params := true; }
        log.Append(FcgiRecord(rtype));
        if rtype == FCGI_BEGIN_REQUEST || rtype == FCGI_END_REQUEST || rtype == FCGI_STDOUT {
          match dir {
            case Read => log.Append(MsgRecv(role, reqId));
            case Write => log.Append(MsgSend(role, reqId));
          }
        }
        if rtype == FCGI_STDOUT { done := true; }
        return FCGI_HEADER_LEN, false;
      }
      var toread := conlen + padlen;
      if toread <= 0 { return -1, true; }
      if |buf| >= toread {
        if params {
          log.Append(Property("PARAMS:", if 2 <= conlen <= toread then CString(buf[2..conlen]) else []));
          params := false;
        }
        success, conlen, padlen, reqId := false, -1, -1, -1;
        return toread, false;
      }
      return |buf|, false;
    }
  }

  /** `pp_dispatcher` and the half of `pp_data` for one direction. */
  datatype Processor =
    | PsqlPP(psql: PsqlSide)
    | MysqlPP(mysql: MysqlSide)
    | HttpsPP(https: HttpsSide)
    | XcPP(xc: XSide)
    | FcgiPP(fcgi: FcgiSide)
    | TrivialPP

  ghost function Footprint(pp: Processor): set<object> {
    match pp
    case PsqlPP(p) => {p}
    case MysqlPP(m) => {m}
    case HttpsPP(h) => {h}
    case XcPP(x) => {x}
    case FcgiPP(f) => {f}
    case TrivialPP => {}
  }

  ghost function StateOf(pp: Processor): PState
    reads Footprint(pp)
  {
    match pp
    case PsqlPP(p) => Psql(p.role, p.dir, p.State())
    case MysqlPP(m) => Mysql(m.role, m.dir, m.State())
    case HttpsPP(h) => Https(h.State())
    case XcPP(x) => Xc(x.State())
    case FcgiPP(f) => Fcgi(f.role, f.dir, f.State())
    case TrivialPP => Trivial
  }

  /** The indirect call through the dispatcher. */
  method Call(pp: Processor, buf: seq<byte>, log: EventLog) returns (r: int, aborted: bool)
    requires buf != [] && Reachable(StateOf(pp))
    modifies Footprint(pp), log
    ensures Did(PPStep(old(StateOf(pp)), buf), r, aborted, old(StateOf(pp)), StateOf(pp),
                old(log.entries), log.entries)
  {
    aborted := false;
    match pp {
      case PsqlPP(p) => r := p.Speak(buf, log);
      case MysqlPP(m) => r := m.Speak(buf, log);
      case HttpsPP(h) => r, aborted := h.Read(buf, log);
      case XcPP(x) => r, aborted := x.Read(buf, log);
      case FcgiPP(f) => r, aborted := f.Speak(buf, log);
      case TrivialPP => r := |buf|;
    }
  }
}
