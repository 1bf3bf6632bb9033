/** Which renames a message survives, over whole logs. */
module Renames {
  import opened Bytes
  import opened Tables
  import opened Join
  import opened JoinTheorems
  import opened Transfer

  // ------------------------------------------------------------------ generated connections

  /** No binding of a generated connection hides another. */
  ghost predicate Single(msgs: Table<(Conn, int), int>) {
    forall k: (Conn, int) | k.0.GenSym? :: |Stack(msgs, k)| <= 1
  }

  lemma SetMsgSingle(ctx: Ctx, pid: int, fd: int, id: int, rid: int)
    requires Single(ctx.msgs)
    ensures Single(SetMsg(ctx, pid, fd, id, rid).msgs)
  {
    var key := (ConnOf(ctx, pid, fd), id);
    forall k: (Conn, int) | k.0.GenSym? ensures |Stack(SetMsg(ctx, pid, fd, id, rid).msgs, k)| <= 1 {
      assert Stack(SetMsg(ctx, pid, fd, id, rid).msgs, k) == if k == key then Overwrite(Stack(ctx.msgs, k), rid) else Stack(ctx.msgs, k);
    }
  }

  lemma RenameSingle(msgs: Table<(Conn, int), int>, from: Conn, to: Conn)
    requires Single(msgs) && (from == to || !to.GenSym?)
    ensures Single(RenameMsgs(msgs, from, to))
  {
    forall k: (Conn, int) | k.0.GenSym? ensures |Stack(RenameMsgs(msgs, from, to), k)| <= 1 {
      assert |Stack(msgs, k)| <= 1;
    }
  }

  lemma NewSingle(ctx: Ctx, e: Event, fd: int, www: string)
    requires Single(ctx.msgs) && (e.what == Open(fd) || e.what == Socket(fd))
    ensures Single(Step(ctx, e, www).msgs)
  {
    SetMsgSingle(SetFd(Bump(ctx), e.pid, fd, Fresh(ctx)), e.pid, fd, FAKE, DgnGet(ctx.dgn, e.Who()));
  }

  lemma PipeSingle(ctx: Ctx, e: Event, fi: int, fo: int, www: string)
    requires Single(ctx.msgs) && e.what == Pipe(fi, fo)
    ensures Single(Step(ctx, e, www).msgs)
  {
    var rid := DgnGet(ctx.dgn, e.Who());
    var named := SetFd(SetFd(Bump(Bump(ctx)), e.pid, fi, Fresh(Bump(ctx))), e.pid, fo, Fresh(ctx));
    SetMsgSingle(named, e.pid, fi, FAKE, rid);
    SetMsgSingle(SetMsg(named, e.pid, fi, FAKE, rid), e.pid, fo, FAKE, rid);
  }

  lemma ReceiveSingle(ctx: Ctx, e: Event, fd: int, id: int, www: string)
    requires Single(ctx.msgs) && e.what == MessageRecv(fd, id)
    ensures Single(Step(ctx, e, www).msgs)
  {
    var conn, looked := ConnOf(ctx, e.pid, fd), AfterConnOf(ctx, e.pid, fd);
    var rid := if Distinguished(conn, www) then ctx.genrid + 1 else RidOf(looked, e.pid, fd, id);
    var numbered := if Distinguished(conn, www) then looked.(genrid := ctx.genrid + 1) else AfterConnOf(looked, e.pid, fd);
    SetMsgSingle(numbered.(dgn := DgnSet(ctx.dgn, e.Who(), rid)), e.pid, fd, FAKE, rid);
  }

  lemma SendSingle(ctx: Ctx, e: Event, fd: int, id: int, www: string)
    requires Single(ctx.msgs) && e.what == MessageSend(fd, id)
    ensures Single(Step(ctx, e, www).msgs)
  {
    SetMsgSingle(ctx, e.pid, fd, id, DgnGet(ctx.dgn, e.Who()));
  }

  lemma ConnectSingle(ctx: Ctx, e: Event, fd: int, rdv: string, www: string)
    requires Single(ctx.msgs) && e.what == Connect(fd, rdv)
    ensures Single(Step(ctx, e, www).msgs)
  {
    RenameSingle(ctx.msgs, ConnOf(ctx, e.pid, fd), HostPort(rdv));
  }

  lemma InitSingle(ctx: Ctx, e: Event, fd: int, www: string)
    requires Single(ctx.msgs) && e.what == ProtocolInit(fd)
    ensures Single(Step(ctx, e, www).msgs)
  {
    RenameSingle(ctx.msgs, ConnOf(ctx, e.pid, fd), ConnOf(ctx, e.pid, fd));
  }

  lemma StepSingle(ctx: Ctx, e: Event, www: string)
    requires Single(ctx.msgs)
    ensures Single(Step(ctx, e, www).msgs)
  {
    match e.what
    case Open(fd) => NewSingle(ctx, e, fd, www);
    case Socket(fd) => NewSingle(ctx, e, fd, www);
    case Pipe(fi, fo) => PipeSingle(ctx, e, fi, fo, www);
    case MessageRecv(fd, id) => ReceiveSingle(ctx, e, fd, id, www);
    case MessageSend(fd, id) => SendSingle(ctx, e, fd, id, www);
    case Connect(fd, rdv) => ConnectSingle(ctx, e, fd, rdv, www);
    case ProtocolInit(fd) => InitSingle(ctx, e, fd, www);
    case _ => OtherKeepsSlots(ctx, e, www);
  }

  /** Over whole logs only connections with a rendezvous ever have hidden bindings. */
  lemma {:induction false} GeneratedSlotsAreSingle(es: seq<Event>, n: nat, www: string)
    requires n <= |es|
    ensures Single(StateAt(es, n, www).msgs)
  {
    if n > 0 {
      GeneratedSlotsAreSingle(es, n - 1, www);
      StepSingle(StateAt(es, n - 1, www), es[n - 1], www);
    }
  }

  lemma SingleKeepsMessages(x: Ctx, from: Conn, to: Conn, pid: int, fd: int, id: int)
    requires from != to && Find(x.fds, (pid, fd)) == Some(from) && |Stack(x.msgs, (from, id))| == 1
    ensures RidOf(ReplaceAllConn(x, from, to), pid, fd, id) == RidOf(x, pid, fd, id)
  {
    RenameKeepsMessages(x, from, to, pid, fd, id);
  }

  /** So the first connect of a socket keeps every message bound on it, in every log. */
  lemma FirstConnectKeepsMessages(es: seq<Event>, n: nat, www: string, from: Conn, to: Conn, pid: int, fd: int, id: int)
    requires n <= |es| && from.GenSym? && from != to
    requires Find(StateAt(es, n, www).fds, (pid, fd)) == Some(from) && Stack(StateAt(es, n, www).msgs, (from, id)) != []
    ensures var x := StateAt(es, n, www);
            RidOf(ReplaceAllConn(x, from, to), pid, fd, id) == RidOf(x, pid, fd, id)
  {
    GeneratedSlotsAreSingle(es, n, www);
    var k := (from, id);
    assert k.0.GenSym? && |Stack(StateAt(es, n, www).msgs, k)| <= 1;
    SingleKeepsMessages(StateAt(es, n, www), from, to, pid, fd, id);
  }

  // ------------------------------------------------------------------ a second connect

  lemma AfterSocket(x: Ctx, e: Event, fd: int, www: string)
    requires Sane(x) && e.what == Socket(fd)
    ensures var y := Step(x, e, www);
            && y.dgn == x.dgn && y.gensym == x.gensym + 1 && Sane(y)
            && (forall k :: Find(y.fds, k) == if k == (e.pid, fd) then Some(Fresh(x)) else Find(x.fds, k))
            && (forall k: (Conn, int) ::
                  Stack(y.msgs, k) == if k == (Fresh(x), FAKE) then [DgnGet(x.dgn, e.Who())] else Stack(x.msgs, k))
  {
    StepSane(x, e, www);
    var k := (Fresh(x), FAKE);
    assert Stack(x.msgs, k) == [] || Known(k.0, x.gensym);
    var named := SetFd(Bump(x), e.pid, fd, Fresh(x));
    assert Step(x, e, www) == SetMsg(named, e.pid, fd, FAKE, DgnGet(x.dgn, e.Who()));
    assert Find(named.fds, (e.pid, fd)) == Some(Fresh(x));
  }

  /** A connect, as the descriptor `d` and the slots of message `id` on the new name and on `c` see it. */
  lemma AfterConnect(x: Ctx, e: Event, fd: int, rdv: string, www: string, from: Conn, d: (int, int), id: int, c: Conn)
    requires Sane(x) && e.what == Connect(fd, rdv) && Find(x.fds, (e.pid, fd)) == Some(from) && from != HostPort(rdv)
    requires c != from && c != HostPort(rdv)
    ensures var y := Step(x, e, www);
            && y.dgn == x.dgn && Sane(y)
            && Find(y.fds, d) == (if Find(x.fds, d) == Some(from) then Some(HostPort(rdv)) else Find(x.fds, d))
            && Stack(y.msgs, (HostPort(rdv), id)) == Stack(x.msgs, (HostPort(rdv), id)) + Reverse(Stack(x.msgs, (from, id)))
            && Stack(y.msgs, (c, id)) == Stack(x.msgs, (c, id))
  {
    StepSane(x, e, www);
    ConnectStep(x, e, fd, rdv, www);
    Renamed(x, from, HostPort(rdv), d, id, c);
  }

  lemma Renamed(x: Ctx, from: Conn, to: Conn, d: (int, int), id: int, c: Conn)
    requires from != to && c != from && c != to
    ensures var y := ReplaceAllConn(x, from, to);
            && y.dgn == x.dgn
            && Find(y.fds, d) == (if Find(x.fds, d) == Some(from) then Some(to) else Find(x.fds, d))
            && Stack(y.msgs, (to, id)) == Stack(x.msgs, (to, id)) + Reverse(Stack(x.msgs, (from, id)))
            && Stack(y.msgs, (c, id)) == Stack(x.msgs, (c, id))
  {
  }

  /** A server takes a request, and it and another process connect sockets to `a`; then it connects its own again. */
  function TwiceConnected(www: string, a: string, b: string): seq<Event> {
    [Event(1, 1, Accept(3, FRONT + www)), Event(1, 1, MessageRecv(3, 0)),
     Event(1, 1, Socket(4)), Event(1, 1, Connect(4, a)),
     Event(2, 2, Socket(4)), Event(2, 2, Connect(4, a)),
     Event(1, 1, Connect(4, b))]
  }

  lemma RequestAccepted(www: string, a: string, b: string)
    ensures var x := StateAt(TwiceConnected(www, a, b), 2, www);
            && DgnGet(x.dgn, Mid(1, 1)) == 1 && DgnGet(x.dgn, Mid(2, 2)) == NONE && Sane(x)
            && forall k: (Conn, int) | k.0 != HostPort(FRONT + www) :: Stack(x.msgs, k) == []
  {
    var es := TwiceConnected(www, a, b);
    NoInventedRequests(es, 2, www);
    Accepts(EmptyCtx, es[0], www, 3, FRONT + www);
    var x := StateAt(es, 1, www);
    assert x == Step(StateAt(es, 0, www), es[0], www);
    HeadMakesRequest(x, es[1], 3, 0, FRONT, www);
    assert x.dgn == [] && x.msgs == map[];
    forall k: (Conn, int) | k.0 != HostPort(FRONT + www) ensures Stack(StateAt(es, 2, www).msgs, k) == [] {
      assert Find(StateAt(es, 2, www).msgs, k) == Find(x.msgs, k);
    }
  }

  /** A socket is made and connected to `a`: its request goes on top of what was bound there. */
  lemma SocketThenConnect(x: Ctx, e: Event, f: Event, a: string, www: string, d: (int, int), c: Conn)
    requires Sane(x) && e.what == Socket(4) && f == e.(what := Connect(4, a))
    requires d != (e.pid, 4) && Find(x.fds, d) != Some(Fresh(x)) && c.HostPort? && c != HostPort(a)
    ensures var z := Step(Step(x, e, www), f, www);
            && Sane(z) && z.dgn == x.dgn && Find(z.fds, (e.pid, 4)) == Some(HostPort(a)) && Find(z.fds, d) == Find(x.fds, d)
            && Stack(z.msgs, (HostPort(a), FAKE)) == Stack(x.msgs, (HostPort(a), FAKE)) + [DgnGet(x.dgn, e.Who())]
            && Stack(z.msgs, (c, FAKE)) == Stack(x.msgs, (c, FAKE))
  {
    AfterSocket(x, e, 4, www);
    var y, own, top := Step(x, e, www), (Fresh(x), FAKE), (HostPort(a), FAKE);
    assert Stack(y.msgs, own) == [DgnGet(x.dgn, e.Who())] && Stack(y.msgs, top) == Stack(x.msgs, top);
    assert Reverse(Stack(y.msgs, own)) == Stack(y.msgs, own);
    AfterConnect(y, f, 4, a, www, Fresh(x), (e.pid, 4), FAKE, c);
    AfterConnect(y, f, 4, a, www, Fresh(x), d, FAKE, c);
  }

  lemma NotGenerated(x: Ctx, d: (int, int))
    requires Sane(x)
    ensures Find(x.fds, d) != Some(Fresh(x))
  {
    var s := Stack(x.fds, d);
    if s != [] { assert Known(s[|s| - 1], x.gensym); }
  }

  lemma Once(www: string, a: string, b: string)
    requires FRONT + www != a && FRONT + www != b && a != b
    ensures var x := StateAt(TwiceConnected(www, a, b), 4, www);
            && Sane(x) && DgnGet(x.dgn, Mid(2, 2)) == NONE && Find(x.fds, (1, 4)) == Some(HostPort(a))
            && Stack(x.msgs, (HostPort(a), FAKE)) == [1] && Stack(x.msgs, (HostPort(b), FAKE)) == []
  {
    var es := TwiceConnected(www, a, b);
    RequestAccepted(www, a, b);
    var x := StateAt(es, 2, www);
    assert StateAt(es, 3, www) == Step(x, es[2], www);
    NotGenerated(x, (2, 4));
    var ka, kb := (HostPort(a), FAKE), (HostPort(b), FAKE);
    assert Stack(x.msgs, ka) == [] && Stack(x.msgs, kb) == [];
    SocketThenConnect(x, es[2], es[3], a, www, (2, 4), HostPort(b));
  }

  lemma Twice(www: string, a: string, b: string)
    requires FRONT + www != a && FRONT + www != b && a != b
    ensures var x := StateAt(TwiceConnected(www, a, b), 6, www);
            && Sane(x) && Find(x.fds, (1, 4)) == Some(HostPort(a))
            && Stack(x.msgs, (HostPort(a), FAKE)) == [1, NONE] && Stack(x.msgs, (HostPort(b), FAKE)) == []
  {
    var es := TwiceConnected(www, a, b);
    Once(www, a, b);
    var x := StateAt(es, 4, www);
    assert StateAt(es, 5, www) == Step(x, es[4], www);
    NotGenerated(x, (1, 4));
    SocketThenConnect(x, es[4], es[5], a, www, (1, 4), HostPort(b));
  }

  /** A connect turns a stack of bindings over: the oldest is found from then on. */
  lemma ConnectTurnsOver(x: Ctx, e: Event, fd: int, rdv: string, www: string, from: Conn, id: int)
    requires e.what == Connect(fd, rdv) && Find(x.fds, (e.pid, fd)) == Some(from) && from != HostPort(rdv)
    requires Stack(x.msgs, (from, id)) != []
    ensures var s := Stack(x.msgs, (from, id));
            RidOf(x, e.pid, fd, id) == s[|s| - 1] && RidOf(Step(x, e, www), e.pid, fd, id) == s[0]
  {
    RenamedMessage(x.msgs, from, HostPort(rdv), id);
    RenamedFd(x.fds, from, HostPort(rdv), (e.pid, fd));
    ConnectStep(x, e, fd, rdv, www);
  }

  lemma RenamedFd(fds: Table<(int, int), Conn>, from: Conn, to: Conn, k: (int, int))
    requires Find(fds, k) == Some(from)
    ensures Find(RenameFds(fds, from, to), k) == Some(to)
  {
  }

  /**
    Hidden bindings trade places when a connected socket is connected again: the message that had no
    request has the first process's request again.
   */
  lemma SecondConnectBringsBackHidden(www: string, a: string, b: string)
    requires FRONT + www != a && FRONT + www != b && a != b
    ensures var es := TwiceConnected(www, a, b);
            && RidOf(StateAt(es, 6, www), 1, 4, FAKE) == NONE
            && RidOf(StateAt(es, 7, www), 1, 4, FAKE) == 1
  {
    var es := TwiceConnected(www, a, b);
    Twice(www, a, b);
    ConnectTurnsOver(StateAt(es, 6, www), es[6], 4, b, www, HostPort(a), FAKE);
    assert StateAt(es, 7, www) == Step(StateAt(es, 6, www), es[6], www);
  }
}
