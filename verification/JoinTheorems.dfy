/** What the temporal join guarantees over every log. */
module JoinTheorems {
  import opened Tables
  import opened Join

  // ------------------------------------------------------------------ no invented requests

  predicate Issued(rid: int, genrid: nat) { rid == NONE || 1 <= rid <= genrid }

  predicate Known(c: Conn, gensym: nat) { c.GenSym? ==> c.n <= gensym }

  ghost predicate DgnIssued(dgn: seq<Dgn>, genrid: nat) {
    forall i | 0 <= i < |dgn| :: Issued(dgn[i].rid, genrid)
  }

  ghost predicate MsgsIssued(msgs: Table<(Conn, int), int>, gensym: nat, genrid: nat) {
    && (forall k, i | 0 <= i < |Stack(msgs, k)| :: Issued(Stack(msgs, k)[i], genrid))
    && (forall k | Stack(msgs, k) != [] :: Known(k.0, gensym))
  }

  ghost predicate FdsKnown(fds: Table<(int, int), Conn>, gensym: nat) {
    forall k, i | 0 <= i < |Stack(fds, k)| :: Known(Stack(fds, k)[i], gensym)
  }

  /** Every stored request has been issued, and every generated connection has been generated. */
  ghost predicate Sane(ctx: Ctx) {
    && DgnIssued(ctx.dgn, ctx.genrid)
    && MsgsIssued(ctx.msgs, ctx.gensym, ctx.genrid)
    && FdsKnown(ctx.fds, ctx.gensym)
  }

  lemma {:induction false} DgnGetIssued(dgn: seq<Dgn>, mid: Mid, genrid: nat)
    requires DgnIssued(dgn, genrid)
    ensures Issued(DgnGet(dgn, mid), genrid)
  {
    if dgn != [] { DgnGetIssued(dgn[1..], mid, genrid); }
  }

  lemma SetFdSane(ctx: Ctx, pid: int, fd: int, conn: Conn)
    requires Sane(ctx) && Known(conn, ctx.gensym)
    ensures Sane(SetFd(ctx, pid, fd, conn))
  {
    var t := SetFd(ctx, pid, fd, conn).fds;
    forall k ensures Stack(t, k) == if k == (pid, fd) then Overwrite(Stack(ctx.fds, k), conn) else Stack(ctx.fds, k) {}
  }

  lemma ConnOfSane(ctx: Ctx, pid: int, fd: int)
    requires Sane(ctx)
    ensures Sane(AfterConnOf(ctx, pid, fd)) && Known(ConnOf(ctx, pid, fd), AfterConnOf(ctx, pid, fd).gensym)
  {
    BumpSane(ctx);
    var s := Stack(ctx.fds, (pid, fd));
    if s != [] { assert Known(s[|s| - 1], ctx.gensym); }
  }

  lemma BumpSane(ctx: Ctx)
    requires Sane(ctx)
    ensures Sane(Bump(ctx))
  {
  }

  lemma RidOfSane(ctx: Ctx, pid: int, fd: int, msgid: int)
    requires Sane(ctx)
    ensures Issued(RidOf(ctx, pid, fd, msgid), ctx.genrid)
  {
    var s := Stack(ctx.msgs, (ConnOf(ctx, pid, fd), msgid));
    if s != [] { assert Issued(s[|s| - 1], ctx.genrid); }
  }

  lemma SetMsgSane(ctx: Ctx, pid: int, fd: int, msgid: int, rid: int)
    requires Sane(ctx) && Issued(rid, ctx.genrid)
    ensures Sane(SetMsg(ctx, pid, fd, msgid, rid))
  {
    ConnOfSane(ctx, pid, fd);
    var key := (ConnOf(ctx, pid, fd), msgid);
    var t := SetMsg(ctx, pid, fd, msgid, rid).msgs;
    forall k ensures Stack(t, k) == if k == key then Overwrite(Stack(ctx.msgs, k), rid) else Stack(ctx.msgs, k) {}
  }

  lemma DgnSetSane(ctx: Ctx, mid: Mid, rid: int)
    requires Sane(ctx) && Issued(rid, ctx.genrid)
    ensures Sane(ctx.(dgn := DgnSet(ctx.dgn, mid, rid)))
  {
  }

  lemma RenameSane(ctx: Ctx, from: Conn, to: Conn)
    requires Sane(ctx) && Known(to, ctx.gensym)
    ensures Sane(ReplaceAllConn(ctx, from, to))
  {
    var t, f := RenameMsgs(ctx.msgs, from, to), RenameFds(ctx.fds, from, to);
    forall k, i | 0 <= i < |Stack(t, k)| ensures Issued(Stack(t, k)[i], ctx.genrid) {
      var was, moved := Stack(ctx.msgs, k), Stack(ctx.msgs, (from, k.1));
      AllIssued(Stack(t, k), was, moved, ctx.genrid);
    }
    forall k | Stack(t, k) != [] ensures Known(k.0, ctx.gensym) {
      assert Stack(ctx.msgs, k) != [] || k.0 == to;
    }
    forall k, i | 0 <= i < |Stack(f, k)| ensures Known(Stack(f, k)[i], ctx.gensym) {
      RenamedKnown(ctx, from, to, k, i);
    }
  }

  lemma AllIssued(now: seq<int>, was: seq<int>, moved: seq<int>, genrid: nat)
    requires now in {[], was, was + Reverse(moved)}
    requires (forall i | 0 <= i < |was| :: Issued(was[i], genrid)) && forall i | 0 <= i < |moved| :: Issued(moved[i], genrid)
    ensures forall i | 0 <= i < |now| :: Issued(now[i], genrid)
  {
  }

  lemma RenamedKnown(ctx: Ctx, from: Conn, to: Conn, k: (int, int), i: nat)
    requires Sane(ctx) && Known(to, ctx.gensym) && i < |Stack(RenameFds(ctx.fds, from, to), k)|
    ensures Known(Stack(RenameFds(ctx.fds, from, to), k)[i], ctx.gensym)
  {
    var was, now := Stack(ctx.fds, k), Stack(RenameFds(ctx.fds, from, to), k);
    assert i < |was| && (now[i] == to || now[i] == was[i]);
  }

  lemma ForkSane(ctx: Ctx, parent: Mid, child: Mid)
    requires Sane(ctx)
    ensures Sane(HandleFork(ctx, parent, child))
  {
    DgnGetIssued(ctx.dgn, parent, ctx.genrid);
    DgnSetSane(ctx, child, DgnGet(ctx.dgn, parent));
    var t := ForkFds(ctx.fds, parent.pid, child.pid);
    forall k, i | 0 <= i < |Stack(t, k)| ensures Known(Stack(t, k)[i], ctx.gensym) {
      var own := Stack(ctx.fds, k);
      if i >= |own| {
        assert Stack(t, k)[i] == Stack(ctx.fds, (parent.pid, k.1))[i - |own|];
      } else {
        assert Stack(t, k)[i] == own[i];
      }
    }
  }

  lemma NewConnSane(ctx: Ctx, e: Event, fd: int)
    requires Sane(ctx)
    ensures Sane(NewConn(ctx, e, fd))
  {
    DgnGetIssued(ctx.dgn, e.Who(), ctx.genrid);
    BumpSane(ctx);
    SetFdSane(Bump(ctx), e.pid, fd, Fresh(ctx));
    SetMsgSane(SetFd(Bump(ctx), e.pid, fd, Fresh(ctx)), e.pid, fd, FAKE, DgnGet(ctx.dgn, e.Who()));
  }

  lemma NewPipeSane(ctx: Ctx, e: Event, fi: int, fo: int)
    requires Sane(ctx)
    ensures Sane(NewPipe(ctx, e, fi, fo))
  {
    var rid := DgnGet(ctx.dgn, e.Who());
    DgnGetIssued(ctx.dgn, e.Who(), ctx.genrid);
    BumpSane(ctx);
    BumpSane(Bump(ctx));
    var two := Bump(Bump(ctx));
    SetFdSane(two, e.pid, fi, Fresh(Bump(ctx)));
    var one := SetFd(two, e.pid, fi, Fresh(Bump(ctx)));
    SetFdSane(one, e.pid, fo, Fresh(ctx));
    var named := SetFd(one, e.pid, fo, Fresh(ctx));
    SetMsgSane(named, e.pid, fi, FAKE, rid);
    SetMsgSane(SetMsg(named, e.pid, fi, FAKE, rid), e.pid, fo, FAKE, rid);
  }

  lemma ReceiveSane(ctx: Ctx, e: Event, fd: int, msgid: int, www: string)
    requires Sane(ctx)
    ensures Sane(Receive(ctx, e, fd, msgid, www))
  {
    ConnOfSane(ctx, e.pid, fd);
    var looked := AfterConnOf(ctx, e.pid, fd);
    if Distinguished(ConnOf(ctx, e.pid, fd), www) {
      NumberSane(looked);
      HandSane(looked.(genrid := ctx.genrid + 1), e, fd, ctx.genrid + 1);
    } else {
      RidOfSane(looked, e.pid, fd, msgid);
      ConnOfSane(looked, e.pid, fd);
      HandSane(AfterConnOf(looked, e.pid, fd), e, fd, RidOf(looked, e.pid, fd, msgid));
    }
  }

  lemma NumberSane(ctx: Ctx)
    requires Sane(ctx)
    ensures Sane(ctx.(genrid := ctx.genrid + 1))
  {
  }

  /** A request is given to the thread and to the connection. */
  lemma HandSane(ctx: Ctx, e: Event, fd: int, rid: int)
    requires Sane(ctx) && Issued(rid, ctx.genrid)
    ensures Sane(SetMsg(ctx.(dgn := DgnSet(ctx.dgn, e.Who(), rid)), e.pid, fd, FAKE, rid))
  {
    DgnSetSane(ctx, e.Who(), rid);
    SetMsgSane(ctx.(dgn := DgnSet(ctx.dgn, e.Who(), rid)), e.pid, fd, FAKE, rid);
  }

  lemma ReadSane(ctx: Ctx, e: Event, fd: int, www: string)
    requires Sane(ctx) && (e.what == Read(fd) || e.what == Poll(false, fd))
    ensures Sane(Step(ctx, e, www))
  {
    ConnOfSane(ctx, e.pid, fd);
    RidOfSane(ctx, e.pid, fd, FAKE);
    DgnSetSane(AfterConnOf(ctx, e.pid, fd), e.Who(), RidOf(ctx, e.pid, fd, FAKE));
  }

  lemma DupSane(ctx: Ctx, e: Event, oldfd: int, newfd: int, www: string)
    requires Sane(ctx) && e.what == Dup(oldfd, newfd)
    ensures Sane(Step(ctx, e, www))
  {
    ConnOfSane(ctx, e.pid, oldfd);
    SetFdSane(AfterConnOf(ctx, e.pid, oldfd), e.pid, newfd, ConnOf(ctx, e.pid, oldfd));
  }

  lemma ConnectStep(ctx: Ctx, e: Event, fd: int, rdv: string, www: string)
    requires e.what == Connect(fd, rdv)
    ensures Step(ctx, e, www) == ReplaceAllConn(AfterConnOf(ctx, e.pid, fd), ConnOf(ctx, e.pid, fd), HostPort(rdv))
  {
  }

  lemma InitStep(ctx: Ctx, e: Event, fd: int, www: string)
    requires e.what == ProtocolInit(fd)
    ensures Step(ctx, e, www) == ReplaceAllConn(AfterConnOf(ctx, e.pid, fd), ConnOf(ctx, e.pid, fd), ConnOf(ctx, e.pid, fd))
  {
  }

  lemma ConnectSane(ctx: Ctx, e: Event, fd: int, rdv: string, www: string)
    requires Sane(ctx) && e.what == Connect(fd, rdv)
    ensures Sane(Step(ctx, e, www))
  {
    ConnOfSane(ctx, e.pid, fd);
    ConnectStep(ctx, e, fd, rdv, www);
    RenameSane(AfterConnOf(ctx, e.pid, fd), ConnOf(ctx, e.pid, fd), HostPort(rdv));
  }

  lemma InitSane(ctx: Ctx, e: Event, fd: int, www: string)
    requires Sane(ctx) && e.what == ProtocolInit(fd)
    ensures Sane(Step(ctx, e, www))
  {
    ConnOfSane(ctx, e.pid, fd);
    InitStep(ctx, e, fd, www);
    RenameSane(AfterConnOf(ctx, e.pid, fd), ConnOf(ctx, e.pid, fd), ConnOf(ctx, e.pid, fd));
  }

  lemma SendSane(ctx: Ctx, e: Event, fd: int, msgid: int, www: string)
    requires Sane(ctx) && e.what == MessageSend(fd, msgid)
    ensures Sane(Step(ctx, e, www))
  {
    DgnGetIssued(ctx.dgn, e.Who(), ctx.genrid);
    SetMsgSane(ctx, e.pid, fd, msgid, DgnGet(ctx.dgn, e.Who()));
  }

  predicate MakesConn(w: What) { w.Open? || w.Socket? || w.Pipe? }

  lemma NewSane(ctx: Ctx, e: Event, www: string)
    requires Sane(ctx) && MakesConn(e.what)
    ensures Sane(Step(ctx, e, www))
  {
    match e.what
    case Open(fd) => NewConnSane(ctx, e, fd);
    case Socket(fd) => NewConnSane(ctx, e, fd);
    case Pipe(fi, fo) => NewPipeSane(ctx, e, fi, fo);
  }

  predicate SetsThread(w: What) { w.Exit? || w.Abort? || w.Shutdown? || w.Exec? || w.Fork? || w.Read? || (w.Poll? && !w.timeout) }

  lemma ThreadSane(ctx: Ctx, e: Event, www: string)
    requires Sane(ctx) && SetsThread(e.what)
    ensures Sane(Step(ctx, e, www))
  {
    match e.what
    case Fork(ppid, ptid) => ForkSane(ctx, Mid(ppid, ptid), e.Who());
    case Read(fd) => ReadSane(ctx, e, fd, www);
    case Poll(_, fd) => ReadSane(ctx, e, fd, www);
    case Exec(_) =>
    case _ => DgnSetSane(ctx, e.Who(), NONE);
  }

  lemma StepSane(ctx: Ctx, e: Event, www: string)
    requires Sane(ctx)
    ensures Sane(Step(ctx, e, www))
  {
    if MakesConn(e.what) {
      NewSane(ctx, e, www);
    } else if SetsThread(e.what) {
      ThreadSane(ctx, e, www);
    } else {
      match e.what
      case Dup(oldfd, newfd) => DupSane(ctx, e, oldfd, newfd, www);
      case Accept(fd, rdv) => SetFdSane(ctx, e.pid, fd, HostPort(rdv));
      case Connect(fd, rdv) => ConnectSane(ctx, e, fd, rdv, www);
      case ProtocolInit(fd) => InitSane(ctx, e, fd, www);
      case MessageSend(fd, msgid) => SendSane(ctx, e, fd, msgid, www);
      case MessageRecv(fd, msgid) => ReceiveSane(ctx, e, fd, msgid, www);
      case _ =>
    }
  }

  /** In every reachable context all stored requests are none or issued ones. */
  lemma {:induction false} NoInventedRequests(es: seq<Event>, n: nat, www: string)
    requires n <= |es|
    ensures Sane(StateAt(es, n, www))
  {
    if n > 0 {
      NoInventedRequests(es, n - 1, www);
      StepSane(StateAt(es, n - 1, www), es[n - 1], www);
    }
  }

  // ------------------------------------------------------------------ counters

  lemma NewCounts(ctx: Ctx, e: Event, www: string)
    requires MakesConn(e.what)
    ensures ctx.gensym <= Step(ctx, e, www).gensym && ctx.genrid <= Step(ctx, e, www).genrid
  {
    match e.what
    case Open(fd) => NewConnCounts(ctx, e, fd, www);
    case Socket(fd) => NewConnCounts(ctx, e, fd, www);
    case Pipe(fi, fo) => NewPipeCounts(ctx, e, fi, fo, www);
  }

  lemma NewConnCounts(ctx: Ctx, e: Event, fd: int, www: string)
    requires e.what == Open(fd) || e.what == Socket(fd)
    ensures ctx.gensym <= Step(ctx, e, www).gensym && ctx.genrid == Step(ctx, e, www).genrid
  {
  }

  lemma NewPipeCounts(ctx: Ctx, e: Event, fi: int, fo: int, www: string)
    requires e.what == Pipe(fi, fo)
    ensures ctx.gensym <= Step(ctx, e, www).gensym && ctx.genrid == Step(ctx, e, www).genrid
  {
  }

  lemma ReceiveCounts(ctx: Ctx, e: Event, fd: int, msgid: int, www: string)
    ensures ctx.gensym <= Receive(ctx, e, fd, msgid, www).gensym && ctx.genrid <= Receive(ctx, e, fd, msgid, www).genrid
  {
  }

  /** Names and request numbers are never taken back. */
  lemma StepCounts(ctx: Ctx, e: Event, www: string)
    ensures ctx.gensym <= Step(ctx, e, www).gensym && ctx.genrid <= Step(ctx, e, www).genrid
  {
    if MakesConn(e.what) {
      NewCounts(ctx, e, www);
    } else {
      match e.what
      case MessageRecv(fd, msgid) => ReceiveCounts(ctx, e, fd, msgid, www);
      case _ =>
    }
  }

  /** A context depends only on the events before it. */
  lemma {:induction false} SamePrefix(es: seq<Event>, fs: seq<Event>, i: nat, www: string)
    requires i <= |es| && i <= |fs| && forall k | 0 <= k < i :: es[k] == fs[k]
    ensures StateAt(es, i, www) == StateAt(fs, i, www)
  {
    if i > 0 { SamePrefix(es, fs, i - 1, www); }
  }
}
