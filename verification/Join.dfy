/**
  The temporal join as functions on values: which request every thread and every message slot of
  every connection is working for, event by event (join.ml, events.ml).
 */
module Join {
  import opened Bytes
  import opened Tables

  datatype Mid = Mid(pid: int, tid: int)

  datatype Dgn = Dgn(mid: Mid, rid: int)

  datatype Conn = GenSym(n: int) | SunPath(path: string) | HostPort(rdv: string)

  datatype Ctx = Ctx(
    dgn: seq<Dgn>,                     // thread -> request
    fds: Table<(int, int), Conn>,      // (pid, fd) -> connection
    msgs: Table<(Conn, int), int>,     // (connection, msgid) -> request
    gensym: nat,
    genrid: nat)

  const EmptyCtx := Ctx([], map[], map[], 0, 0)

  datatype What =
    | Start
    | Fork(ppid: int, ptid: int)
    | Exec(oldtid: int)
    | PollBegin
    | Poll(timeout: bool, pollfd: int)
    | Socket(sfd: int)
    | Pipe(fi: int, fo: int)
    | Dup(oldfd: int, newfd: int)
    | Close(cfd: int)
    | Exit | Abort | Shutdown
    | Accept(afd: int, ardv: string)
    | Connect(confd: int, crdv: string)
    | Open(ofd: int)
    | WriteBegin(wbfd: int)
    | Write(wfd: int)
    | ReadBegin(rbfd: int)
    | Read(rfd: int)
    | ProtocolInit(pfd: int)
    | MessageSend(mfd: int, msgid: int)
    | MessageRecv(mfd: int, msgid: int)
    | SkipEvent
    | TodoEvent

  datatype Event = Event(pid: int, tid: int, what: What) {
    function Who(): Mid { Mid(pid, tid) }
  }

  const NONE := -1
  const FAKE := -9   // fake_msg_id

  // ------------------------------------------------------------------ threads

  function DgnGet(dgn: seq<Dgn>, mid: Mid): int {
    if dgn == [] then NONE
    else if dgn[0].mid == mid && dgn[0].rid != NONE then dgn[0].rid
    else DgnGet(dgn[1..], mid)
  }

  /** Every entry of the thread is overwritten. */
  function Designate(dgn: seq<Dgn>, mid: Mid, rid: int): (d: seq<Dgn>)
    ensures |d| == |dgn|
  {
    seq(|dgn|, i requires 0 <= i < |dgn| => if dgn[i].mid == mid then Dgn(mid, rid) else dgn[i])
  }

  predicate Listed(dgn: seq<Dgn>, mid: Mid) { exists i | 0 <= i < |dgn| :: dgn[i].mid == mid }

  function DgnSet(dgn: seq<Dgn>, mid: Mid, rid: int): seq<Dgn> {
    if Listed(dgn, mid) then Designate(dgn, mid, rid) else dgn + [Dgn(mid, rid)]
  }

  /** Exec: every entry of the process now names the thread that is left. */
  function Collapse(dgn: seq<Dgn>, mid: Mid): (d: seq<Dgn>)
    ensures |d| == |dgn|
  {
    seq(|dgn|, i requires 0 <= i < |dgn| => if dgn[i].mid.pid == mid.pid then Dgn(mid, dgn[i].rid) else dgn[i])
  }

  // ------------------------------------------------------------------ connections and messages

  function Fresh(ctx: Ctx): Conn { GenSym(ctx.gensym + 1) }

  function Bump(ctx: Ctx): Ctx { ctx.(gensym := ctx.gensym + 1) }

  /** `conn_of_fd`: an unknown descriptor gets a connection of its own, which is not remembered. */
  function ConnOf(ctx: Ctx, pid: int, fd: int): Conn {
    match Find(ctx.fds, (pid, fd)) case Some(c) => c case None => Fresh(ctx)
  }

  function AfterConnOf(ctx: Ctx, pid: int, fd: int): Ctx {
    if Find(ctx.fds, (pid, fd)).Some? then ctx else Bump(ctx)
  }

  function SetFd(ctx: Ctx, pid: int, fd: int, conn: Conn): Ctx {
    ctx.(fds := Replace(ctx.fds, (pid, fd), conn))
  }

  /** `rid_of_msg` */
  function RidOf(ctx: Ctx, pid: int, fd: int, msgid: int): int {
    match Find(ctx.msgs, (ConnOf(ctx, pid, fd), msgid)) case Some(r) => r case None => NONE
  }

  function SetMsg(ctx: Ctx, pid: int, fd: int, msgid: int, rid: int): Ctx {
    AfterConnOf(ctx, pid, fd).(msgs := Replace(ctx.msgs, (ConnOf(ctx, pid, fd), msgid), rid))
  }

  /** The parent's bindings, hidden ones included, are added over the child's. */
  function ForkFds(fds: Table<(int, int), Conn>, ppid: int, pid: int): (t: Table<(int, int), Conn>)
    ensures forall k :: Stack(t, k) == Stack(fds, k) + if k.0 == pid then Stack(fds, (ppid, k.1)) else []
  {
    map k | k in fds.Keys + (set j | j in fds && j.0 == ppid :: (pid, j.1)) ::
      Stack(fds, k) + if k.0 == pid then Stack(fds, (ppid, k.1)) else []
  }

  function HandleFork(ctx: Ctx, parent: Mid, child: Mid): Ctx {
    ctx.(fds := ForkFds(ctx.fds, parent.pid, child.pid),
         dgn := DgnSet(ctx.dgn, child, DgnGet(ctx.dgn, parent)))
  }

  function RenameFds(fds: Table<(int, int), Conn>, from: Conn, to: Conn): (t: Table<(int, int), Conn>)
    ensures forall k :: Stack(t, k) == if Find(fds, k) == Some(from) then Overwrite(Stack(fds, k), to) else Stack(fds, k)
  {
    map k | k in fds :: if Find(fds, k) == Some(from) then Overwrite(fds[k], to) else fds[k]
  }

  /**
    Every binding of `from` is popped and pushed on `to`: a stack of several arrives upside down, on
    top of what was there.
   */
  function RenameMsgs(msgs: Table<(Conn, int), int>, from: Conn, to: Conn): (t: Table<(Conn, int), int>)
    ensures forall k :: Stack(t, k) ==
              if from == to then Stack(msgs, k)
              else if k.0 == from then []
              else if k.0 == to then Stack(msgs, k) + Reverse(Stack(msgs, (from, k.1)))
              else Stack(msgs, k)
  {
    map k | k in msgs.Keys + (set j | j in msgs && j.0 == from :: (to, j.1)) ::
      if from == to then Stack(msgs, k)
      else if k.0 == from then []
      else if k.0 == to then Stack(msgs, k) + Reverse(Stack(msgs, (from, k.1)))
      else Stack(msgs, k)
  }

  function ReplaceAllConn(ctx: Ctx, from: Conn, to: Conn): Ctx {
    ctx.(fds := RenameFds(ctx.fds, from, to), msgs := RenameMsgs(ctx.msgs, from, to))
  }

  /** `distinguished_conn`: the rendezvous ends in the web server's port, given as ":80". */
  predicate Distinguished(conn: Conn, www: string) {
    conn.HostPort? && |www| <= |conn.rdv| && conn.rdv[|conn.rdv| - |www|..] == www
  }

  // ------------------------------------------------------------------ one event

  /** A new connection for `fd`, working for the caller's request: open and socket. */
  function NewConn(ctx: Ctx, e: Event, fd: int): Ctx {
    SetMsg(SetFd(Bump(ctx), e.pid, fd, Fresh(ctx)), e.pid, fd, FAKE, DgnGet(ctx.dgn, e.Who()))
  }

  /** OCaml evaluates arguments from the right: the writing end's connection is made first. */
  function NewPipe(ctx: Ctx, e: Event, fi: int, fo: int): Ctx {
    var rid := DgnGet(ctx.dgn, e.Who());
    var named := SetFd(SetFd(Bump(Bump(ctx)), e.pid, fi, Fresh(Bump(ctx))), e.pid, fo, Fresh(ctx));
    SetMsg(SetMsg(named, e.pid, fi, FAKE, rid), e.pid, fo, FAKE, rid)
  }

  /** Reading: the thread takes over the request of the connection's current message. */
  function Receive(ctx: Ctx, e: Event, fd: int, msgid: int, www: string): Ctx {
    var conn := ConnOf(ctx, e.pid, fd);
    var looked := AfterConnOf(ctx, e.pid, fd);
    var rid := if Distinguished(conn, www) then ctx.genrid + 1 else RidOf(looked, e.pid, fd, msgid);
    var numbered := if Distinguished(conn, www) then looked.(genrid := ctx.genrid + 1) else AfterConnOf(looked, e.pid, fd);
    SetMsg(numbered.(dgn := DgnSet(ctx.dgn, e.Who(), rid)), e.pid, fd, FAKE, rid)
  }

  /** `stream_join` */
  function Step(ctx: Ctx, e: Event, www: string): Ctx {
    match e.what
    case Fork(ppid, ptid) => HandleFork(ctx, Mid(ppid, ptid), e.Who())
    case Exec(_) => ctx.(dgn := Collapse(ctx.dgn, e.Who()))
    case Poll(timeout, fd) =>
      if timeout then ctx
      else AfterConnOf(ctx, e.pid, fd).(dgn := DgnSet(ctx.dgn, e.Who(), RidOf(ctx, e.pid, fd, FAKE)))
    case Open(fd) => NewConn(ctx, e, fd)
    case Socket(fd) => NewConn(ctx, e, fd)
    case Pipe(fi, fo) => NewPipe(ctx, e, fi, fo)
    case Dup(oldfd, newfd) => SetFd(AfterConnOf(ctx, e.pid, oldfd), e.pid, newfd, ConnOf(ctx, e.pid, oldfd))
    case Accept(fd, rdv) => SetFd(ctx, e.pid, fd, HostPort(rdv))
    case Connect(fd, rdv) => ReplaceAllConn(AfterConnOf(ctx, e.pid, fd), ConnOf(ctx, e.pid, fd), HostPort(rdv))
    case Read(fd) =>
      var rid := RidOf(ctx, e.pid, fd, FAKE);
      var looked := AfterConnOf(ctx, e.pid, fd);
      if rid == NONE then looked else looked.(dgn := DgnSet(ctx.dgn, e.Who(), rid))
    case ProtocolInit(fd) =>
      var conn := ConnOf(ctx, e.pid, fd);
      ReplaceAllConn(AfterConnOf(ctx, e.pid, fd), conn, conn)
    case MessageSend(fd, msgid) => SetMsg(ctx, e.pid, fd, msgid, DgnGet(ctx.dgn, e.Who()))
    case MessageRecv(fd, msgid) => Receive(ctx, e, fd, msgid, www)
    case Exit => ctx.(dgn := DgnSet(ctx.dgn, e.Who(), NONE))
    case Abort => ctx.(dgn := DgnSet(ctx.dgn, e.Who(), NONE))
    case Shutdown => ctx.(dgn := DgnSet(ctx.dgn, e.Who(), NONE))
    case _ => ctx
  }

  /** `run`: the context after the first `n` events of a log. */
  function StateAt(es: seq<Event>, n: nat, www: string): Ctx
    requires n <= |es|
  {
    if n == 0 then EmptyCtx else Step(StateAt(es, n - 1, www), es[n - 1], www)
  }
}
