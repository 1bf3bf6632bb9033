/** Every event takes renamed contexts to renamed contexts. */
module RenamedSteps {
  import opened Bytes
  import opened Tables
  import opened Join
  import opened Transfer
  import opened Renaming

  /** The descriptor whose connection the event reads or writes a message of. */
  function Used(w: What): Option<int> {
    match w
    case Poll(timeout, fd) => if timeout then None else Some(fd)
    case Read(fd) => Some(fd)
    case MessageSend(fd, _) => Some(fd)
    case MessageRecv(fd, _) => Some(fd)
    case _ => None
  }

  /** The connections an event touches: the one it uses, and those it makes. */
  predicate Touched(x: Ctx, e: Event, www: string, c: Conn) {
    || (Used(e.what).Some? && ConnOf(x, e.pid, Used(e.what).value) == c)
    || (c.GenSym? && x.gensym < c.n <= Step(x, e, www).gensym)
  }

  /** The scope covers what the event looks at. */
  ghost predicate Within(x: Ctx, e: Event, www: string, s: Scope) {
    && e.pid in s.procs && (forall c | Touched(x, e, www, c) :: c in s.conns)
    && (e.what.Fork? ==> e.what.ppid in s.procs)
    && (e.what.Connect? ==> Total(s))
  }

  ghost predicate ReqLined(x: Ctx, y: Ctx, s: Scope, n: int) {
    forall r | x.genrid < r <= x.genrid + n :: s.req(r) == r + (y.genrid - x.genrid)
  }

  /** The names and numbers the event is about to use are renamed to the next ones of the other context. */
  ghost predicate InTurn(x: Ctx, y: Ctx, e: Event, www: string, s: Scope) {
    && Lined(x, y, s, Step(x, e, www).gensym - x.gensym)
    && ReqLined(x, y, s, Step(x, e, www).genrid - x.genrid)
  }

  ghost predicate Ready(x: Ctx, y: Ctx, e: Event, www: string, s: Scope) {
    Like(x, y, s) && Within(x, e, www, s) && InTurn(x, y, e, www, s)
  }

  ghost predicate Done(x: Ctx, y: Ctx, e: Event, www: string, s: Scope) {
    var u, v := Step(x, e, www), Step(y, e, www);
    Like(u, v, s) && v.gensym - y.gensym == u.gensym - x.gensym && v.genrid - y.genrid == u.genrid - x.genrid
  }

  lemma NewLike(x: Ctx, y: Ctx, s: Scope, e: Event, fd: int, www: string)
    requires Ready(x, y, e, www, s) && (e.what == Open(fd) || e.what == Socket(fd))
    ensures Done(x, y, e, www, s)
  {
    var u, v := SetFd(Bump(x), e.pid, fd, Fresh(x)), SetFd(Bump(y), e.pid, fd, Fresh(y));
    assert Touched(x, e, www, Fresh(x)) && Fresh(y) == Ren(s, Fresh(x));
    GetLike(x.dgn, y.dgn, s, e.Who());
    SetFdLike(Bump(x), Bump(y), s, e.pid, fd, Fresh(x));
    assert ConnOf(u, e.pid, fd) == Fresh(x) && ConnOf(v, e.pid, fd) == Fresh(y);
    SetMsgLike(u, v, s, e.pid, fd, FAKE, DgnGet(x.dgn, e.Who()));
  }

  lemma PipeLike(x: Ctx, y: Ctx, s: Scope, e: Event, fi: int, fo: int, www: string)
    requires Ready(x, y, e, www, s) && e.what == Pipe(fi, fo)
    ensures Done(x, y, e, www, s)
  {
    assert Touched(x, e, www, Fresh(x)) && Fresh(y) == Ren(s, Fresh(x));
    assert Touched(x, e, www, Fresh(Bump(x))) && Fresh(Bump(y)) == Ren(s, Fresh(Bump(x)));
    GetLike(x.dgn, y.dgn, s, e.Who());
    PipeFdsLike(x, y, s, e, fi, fo);
    PipeMsgsLike(PipeFds(x, e, fi, fo), PipeFds(y, e, fi, fo), s, e, fi, fo, DgnGet(x.dgn, e.Who()));
  }

  /** Both descriptors of a pipe, with their connections. */
  function PipeFds(x: Ctx, e: Event, fi: int, fo: int): Ctx {
    SetFd(SetFd(Bump(Bump(x)), e.pid, fi, Fresh(Bump(x))), e.pid, fo, Fresh(x))
  }

  lemma PipeFdsLike(x: Ctx, y: Ctx, s: Scope, e: Event, fi: int, fo: int)
    requires Like(x, y, s) && Fresh(y) == Ren(s, Fresh(x)) && Fresh(Bump(y)) == Ren(s, Fresh(Bump(x)))
    requires Fresh(x) in s.conns && Fresh(Bump(x)) in s.conns
    ensures var u, v := PipeFds(x, e, fi, fo), PipeFds(y, e, fi, fo);
            && Like(u, v, s) && u.dgn == x.dgn && v.dgn == y.dgn
            && ConnOf(u, e.pid, fi) in s.conns && ConnOf(v, e.pid, fi) == Ren(s, ConnOf(u, e.pid, fi))
            && ConnOf(u, e.pid, fo) in s.conns && ConnOf(v, e.pid, fo) == Ren(s, ConnOf(u, e.pid, fo))
            && Find(u.fds, (e.pid, fi)).Some? && Find(v.fds, (e.pid, fi)).Some?
  {
    SetFdLike(Bump(Bump(x)), Bump(Bump(y)), s, e.pid, fi, Fresh(Bump(x)));
    var u1, v1 := SetFd(Bump(Bump(x)), e.pid, fi, Fresh(Bump(x))), SetFd(Bump(Bump(y)), e.pid, fi, Fresh(Bump(y)));
    SetFdLike(u1, v1, s, e.pid, fo, Fresh(x));
    PipeEnds(x, e, fi, fo);
    PipeEnds(y, e, fi, fo);
  }

  lemma PipeMsgsLike(u: Ctx, v: Ctx, s: Scope, e: Event, fi: int, fo: int, rid: int)
    requires Like(u, v, s) && Find(u.fds, (e.pid, fi)).Some? && Find(v.fds, (e.pid, fi)).Some?
    requires ConnOf(u, e.pid, fi) in s.conns && ConnOf(v, e.pid, fi) == Ren(s, ConnOf(u, e.pid, fi))
    requires ConnOf(u, e.pid, fo) in s.conns && ConnOf(v, e.pid, fo) == Ren(s, ConnOf(u, e.pid, fo))
    ensures Like(SetMsg(SetMsg(u, e.pid, fi, FAKE, rid), e.pid, fo, FAKE, rid),
                 SetMsg(SetMsg(v, e.pid, fi, FAKE, s.req(rid)), e.pid, fo, FAKE, s.req(rid)), s)
  {
    SetMsgLike(u, v, s, e.pid, fi, FAKE, rid);
    SetMsgLike(SetMsg(u, e.pid, fi, FAKE, rid), SetMsg(v, e.pid, fi, FAKE, s.req(rid)), s, e.pid, fo, FAKE, rid);
  }

  lemma PipeEnds(x: Ctx, e: Event, fi: int, fo: int)
    ensures var u := PipeFds(x, e, fi, fo);
            && ConnOf(u, e.pid, fo) == Fresh(x)
            && ConnOf(u, e.pid, fi) == (if fi == fo then Fresh(x) else Fresh(Bump(x)))
            && Find(u.fds, (e.pid, fi)).Some?
  {
    var first := SetFd(Bump(Bump(x)), e.pid, fi, Fresh(Bump(x)));
    assert Find(first.fds, (e.pid, fi)) == Some(Fresh(Bump(x)));
    var u := SetFd(first, e.pid, fo, Fresh(x));
    assert Find(u.fds, (e.pid, fo)) == Some(Fresh(x));
    assert fi != fo ==> Find(u.fds, (e.pid, fi)) == Find(first.fds, (e.pid, fi));
  }

  lemma DupLike(x: Ctx, y: Ctx, s: Scope, e: Event, oldfd: int, newfd: int, www: string)
    requires Ready(x, y, e, www, s) && e.what == Dup(oldfd, newfd)
    ensures Done(x, y, e, www, s)
  {
    ConnOfLike(x, y, s, e.pid, oldfd);
    SetFdLike(AfterConnOf(x, e.pid, oldfd), AfterConnOf(y, e.pid, oldfd), s, e.pid, newfd, ConnOf(x, e.pid, oldfd));
  }

  lemma ReadLike(x: Ctx, y: Ctx, s: Scope, e: Event, fd: int, www: string)
    requires Ready(x, y, e, www, s) && (e.what == Read(fd) || e.what == Poll(false, fd))
    ensures Done(x, y, e, www, s)
  {
    ConnOfLike(x, y, s, e.pid, fd);
    assert Touched(x, e, www, ConnOf(x, e.pid, fd));
    RidOfLike(x, y, s, e.pid, fd, FAKE);
    SetLike(x.dgn, y.dgn, s, e.Who(), RidOf(x, e.pid, fd, FAKE));
  }

  lemma SendLike(x: Ctx, y: Ctx, s: Scope, e: Event, fd: int, id: int, www: string)
    requires Ready(x, y, e, www, s) && e.what == MessageSend(fd, id)
    ensures Done(x, y, e, www, s)
  {
    ConnOfLike(x, y, s, e.pid, fd);
    assert Touched(x, e, www, ConnOf(x, e.pid, fd));
    GetLike(x.dgn, y.dgn, s, e.Who());
    SetMsgLike(x, y, s, e.pid, fd, id, DgnGet(x.dgn, e.Who()));
  }

  lemma ThreadLike(x: Ctx, y: Ctx, s: Scope, m: Mid, rid: int)
    requires Like(x, y, s)
    ensures Like(x.(dgn := DgnSet(x.dgn, m, rid)), y.(dgn := DgnSet(y.dgn, m, s.req(rid))), s)
  {
    SetLike(x.dgn, y.dgn, s, m, rid);
  }

  /** A request head. */
  lemma HeadLike(x: Ctx, y: Ctx, s: Scope, e: Event, fd: int, id: int, www: string)
    requires Ready(x, y, e, www, s) && e.what == MessageRecv(fd, id) && Distinguished(ConnOf(x, e.pid, fd), www)
    ensures Done(x, y, e, www, s)
  {
    ConnOfLike(x, y, s, e.pid, fd);
    HeadStep(x, e, fd, id, www);
    HeadStep(y, e, fd, id, www);
    assert Touched(x, e, www, ConnOf(x, e.pid, fd));
    var rid := x.genrid + 1;
    assert s.req(rid) == y.genrid + 1;
    ThreadLike(x, y, s, e.Who(), rid);
    SetMsgLike(Headed(x, e), Headed(y, e), s, e.pid, fd, FAKE, rid);
  }

  /** The thread is given a new request. */
  function Headed(x: Ctx, e: Event): Ctx {
    x.(dgn := DgnSet(x.dgn, e.Who(), x.genrid + 1), genrid := x.genrid + 1)
  }

  lemma HeadStep(x: Ctx, e: Event, fd: int, id: int, www: string)
    requires e.what == MessageRecv(fd, id) && Distinguished(ConnOf(x, e.pid, fd), www)
    ensures Step(x, e, www) == SetMsg(Headed(x, e), e.pid, fd, FAKE, x.genrid + 1)
    ensures Step(x, e, www).gensym == x.gensym && Step(x, e, www).genrid == x.genrid + 1
  {
  }

  /** A message received on a connection already known. */
  lemma TakeLike(x: Ctx, y: Ctx, s: Scope, e: Event, fd: int, id: int, www: string)
    requires Ready(x, y, e, www, s) && e.what == MessageRecv(fd, id)
    requires Find(x.fds, (e.pid, fd)).Some? && !Distinguished(ConnOf(x, e.pid, fd), www)
    ensures Done(x, y, e, www, s)
  {
    ConnOfLike(x, y, s, e.pid, fd);
    assert Touched(x, e, www, ConnOf(x, e.pid, fd));
    RidOfLike(x, y, s, e.pid, fd, id);
    var rid := RidOf(x, e.pid, fd, id);
    ThreadLike(x, y, s, e.Who(), rid);
    SetMsgLike(x.(dgn := DgnSet(x.dgn, e.Who(), rid)), y.(dgn := DgnSet(y.dgn, e.Who(), s.req(rid))), s, e.pid, fd, FAKE, rid);
  }

  /** A message received on an unknown descriptor: three connections are made for it. */
  function Stray(x: Ctx, e: Event, fd: int, id: int): Ctx {
    var rid := RidOf(Bump(x), e.pid, fd, id);
    SetMsg(Bump(Bump(x)).(dgn := DgnSet(x.dgn, e.Who(), rid)), e.pid, fd, FAKE, rid)
  }

  lemma StrayStep(x: Ctx, e: Event, fd: int, id: int, www: string)
    requires e.what == MessageRecv(fd, id) && Find(x.fds, (e.pid, fd)).None?
    ensures Step(x, e, www) == Stray(x, e, fd, id) && Stray(x, e, fd, id).gensym == x.gensym + 3
    ensures Stray(x, e, fd, id).genrid == x.genrid
  {
  }

  lemma StrayLike(x: Ctx, y: Ctx, s: Scope, e: Event, fd: int, id: int, www: string)
    requires Ready(x, y, e, www, s) && e.what == MessageRecv(fd, id) && Find(x.fds, (e.pid, fd)).None?
    ensures Done(x, y, e, www, s)
  {
    ConnOfLike(x, y, s, e.pid, fd);
    StrayStep(x, e, fd, id, www);
    StrayStep(y, e, fd, id, www);
    assert Touched(x, e, www, Fresh(Bump(x))) && Fresh(Bump(y)) == Ren(s, Fresh(Bump(x)));
    assert Touched(x, e, www, Fresh(Bump(Bump(x)))) && Fresh(Bump(Bump(y))) == Ren(s, Fresh(Bump(Bump(x))));
    StraysAlike(x, y, s, e, fd, id);
  }

  lemma StraysAlike(x: Ctx, y: Ctx, s: Scope, e: Event, fd: int, id: int)
    requires Like(x, y, s) && Find(x.fds, (e.pid, fd)).None? && Find(y.fds, (e.pid, fd)).None?
    requires Fresh(Bump(x)) in s.conns && Fresh(Bump(y)) == Ren(s, Fresh(Bump(x)))
    requires Fresh(Bump(Bump(x))) in s.conns && Fresh(Bump(Bump(y))) == Ren(s, Fresh(Bump(Bump(x))))
    ensures Like(Stray(x, e, fd, id), Stray(y, e, fd, id), s)
  {
    RidOfLike(Bump(x), Bump(y), s, e.pid, fd, id);
    var rid := RidOf(Bump(x), e.pid, fd, id);
    var x2, y2 := Bump(Bump(x)), Bump(Bump(y));
    ThreadLike(x2, y2, s, e.Who(), rid);
    SetMsgLike(x2.(dgn := DgnSet(x.dgn, e.Who(), rid)), y2.(dgn := DgnSet(y.dgn, e.Who(), s.req(rid))), s, e.pid, fd, FAKE, rid);
  }

  lemma ForkLike(x: Ctx, y: Ctx, s: Scope, e: Event, www: string)
    requires Ready(x, y, e, www, s) && e.what.Fork?
    ensures Done(x, y, e, www, s)
  {
    var ppid := e.what.ppid;
    GetLike(x.dgn, y.dgn, s, Mid(ppid, e.what.ptid));
    SetLike(x.dgn, y.dgn, s, e.Who(), DgnGet(x.dgn, Mid(ppid, e.what.ptid)));
    ForkFdsLike(x.fds, y.fds, s, ppid, e.pid);
  }

  lemma ForkFdsLike(x: Table<(int, int), Conn>, y: Table<(int, int), Conn>, s: Scope, ppid: int, pid: int)
    requires FdsLike(x, y, s) && ppid in s.procs
    ensures FdsLike(ForkFds(x, ppid, pid), ForkFds(y, ppid, pid), s)
  {
    forall k: (int, int) | k.0 in s.procs
      ensures Stack(ForkFds(y, ppid, pid), k) == RenAll(s, Stack(ForkFds(x, ppid, pid), k))
    {
      var j := (ppid, k.1);
      assert Stack(y, k) == RenAll(s, Stack(x, k)) && Stack(y, j) == RenAll(s, Stack(x, j));
      RenAppend(s, Stack(x, k), Stack(x, j));
    }
  }

  lemma RenAppend(s: Scope, a: seq<Conn>, b: seq<Conn>)
    ensures RenAll(s, a + b) == RenAll(s, a) + RenAll(s, b)
  {
  }

  lemma ConnectLike(x: Ctx, y: Ctx, s: Scope, e: Event, fd: int, rdv: string, www: string)
    requires Ready(x, y, e, www, s) && e.what == Connect(fd, rdv)
    ensures Done(x, y, e, www, s)
  {
    ConnOfLike(x, y, s, e.pid, fd);
    RenameFdsLike(x.fds, y.fds, s, ConnOf(x, e.pid, fd), HostPort(rdv));
    RenameMsgsLike(x.msgs, y.msgs, s, ConnOf(x, e.pid, fd), HostPort(rdv));
  }

  lemma InitLike(x: Ctx, y: Ctx, s: Scope, e: Event, fd: int, www: string)
    requires Ready(x, y, e, www, s) && e.what == ProtocolInit(fd)
    ensures Done(x, y, e, www, s)
  {
    ConnOfLike(x, y, s, e.pid, fd);
    RenameToSelf(x, ConnOf(x, e.pid, fd));
    RenameToSelf(y, ConnOf(y, e.pid, fd));
    var u, v := Step(x, e, www), Step(y, e, www);
    LikeSame(x, y, u, v, s);
  }

  lemma LikeSame(x: Ctx, y: Ctx, u: Ctx, v: Ctx, s: Scope)
    requires Like(x, y, s) && u.dgn == x.dgn && v.dgn == y.dgn
    requires Same(u.fds, x.fds) && Same(v.fds, y.fds) && Same(u.msgs, x.msgs) && Same(v.msgs, y.msgs)
    ensures Like(u, v, s)
  {
    forall k: (int, int) | k.0 in s.procs ensures Stack(v.fds, k) == RenAll(s, Stack(u.fds, k)) {
      assert Stack(u.fds, k) == Stack(x.fds, k) && Stack(v.fds, k) == Stack(y.fds, k);
    }
    forall k: (Conn, int) | k.0 in s.conns ensures Stack(v.msgs, (Ren(s, k.0), k.1)) == ReqAll(s, Stack(u.msgs, k)) {
      assert Stack(u.msgs, k) == Stack(x.msgs, k);
      assert Stack(v.msgs, (Ren(s, k.0), k.1)) == Stack(y.msgs, (Ren(s, k.0), k.1));
    }
  }

  lemma ReceiveLike(x: Ctx, y: Ctx, s: Scope, e: Event, www: string)
    requires Ready(x, y, e, www, s) && e.what.MessageRecv?
    ensures Done(x, y, e, www, s)
  {
    var fd, id := e.what.mfd, e.what.msgid;
    if Find(x.fds, (e.pid, fd)).None? {
      StrayLike(x, y, s, e, fd, id, www);
    } else if Distinguished(ConnOf(x, e.pid, fd), www) {
      HeadLike(x, y, s, e, fd, id, www);
    } else {
      TakeLike(x, y, s, e, fd, id, www);
    }
  }

  /** Events that change nothing. */
  predicate Silent(w: What) {
    w.Start? || w.PollBegin? || w.Close? || w.WriteBegin? || w.Write? || w.ReadBegin? || w.SkipEvent? || w.TodoEvent?
    || (w.Poll? && w.timeout)
  }

  lemma SilentLike(x: Ctx, y: Ctx, s: Scope, e: Event, www: string)
    requires Ready(x, y, e, www, s) && Silent(e.what)
    ensures Done(x, y, e, www, s)
  {
    assert Step(x, e, www) == x && Step(y, e, www) == y;
  }

  lemma ExecLike(x: Ctx, y: Ctx, s: Scope, e: Event, www: string)
    requires Ready(x, y, e, www, s) && e.what.Exec?
    ensures Done(x, y, e, www, s)
  {
    CollapseLike(x.dgn, y.dgn, s, e.Who());
  }

  lemma AcceptLike(x: Ctx, y: Ctx, s: Scope, e: Event, fd: int, rdv: string, www: string)
    requires Ready(x, y, e, www, s) && e.what == Accept(fd, rdv)
    ensures Done(x, y, e, www, s)
  {
    var u, v := SetFd(x, e.pid, fd, HostPort(rdv)), SetFd(y, e.pid, fd, HostPort(rdv));
    assert Step(x, e, www) == u && Step(y, e, www) == v;
    SetFdLike(x, y, s, e.pid, fd, HostPort(rdv));
  }

  lemma EndLike(x: Ctx, y: Ctx, s: Scope, e: Event, www: string)
    requires Ready(x, y, e, www, s) && e.what in {Exit, Abort, Shutdown}
    ensures Done(x, y, e, www, s)
  {
    var u, v := x.(dgn := DgnSet(x.dgn, e.Who(), NONE)), y.(dgn := DgnSet(y.dgn, e.Who(), NONE));
    assert Step(x, e, www) == u && Step(y, e, www) == v;
    ThreadLike(x, y, s, e.Who(), NONE);
  }

  /** An event does the same, renamed, in two contexts that look alike to it. */
  lemma StepLike(x: Ctx, y: Ctx, s: Scope, e: Event, www: string)
    requires Ready(x, y, e, www, s)
    ensures Done(x, y, e, www, s)
  {
    match e.what
    case Open(fd) => NewLike(x, y, s, e, fd, www);
    case Socket(fd) => NewLike(x, y, s, e, fd, www);
    case Pipe(fi, fo) => PipeLike(x, y, s, e, fi, fo, www);
    case Dup(oldfd, newfd) => DupLike(x, y, s, e, oldfd, newfd, www);
    case Read(fd) => ReadLike(x, y, s, e, fd, www);
    case MessageSend(fd, id) => SendLike(x, y, s, e, fd, id, www);
    case MessageRecv(_, _) => ReceiveLike(x, y, s, e, www);
    case Fork(_, _) => ForkLike(x, y, s, e, www);
    case Connect(fd, rdv) => ConnectLike(x, y, s, e, fd, rdv, www);
    case ProtocolInit(fd) => InitLike(x, y, s, e, fd, www);
    case Poll(timeout, fd) => if timeout { SilentLike(x, y, s, e, www); } else { ReadLike(x, y, s, e, fd, www); }
    case Exec(_) => ExecLike(x, y, s, e, www);
    case Accept(fd, rdv) => AcceptLike(x, y, s, e, fd, rdv, www);
    case Exit => EndLike(x, y, s, e, www);
    case Abort => EndLike(x, y, s, e, www);
    case Shutdown => EndLike(x, y, s, e, www);
    case _ => SilentLike(x, y, s, e, www);
  }
}
