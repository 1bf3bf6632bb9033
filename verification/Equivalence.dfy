/** Contexts whose tables have the same bindings are the same to every event. */
module Equivalence {
  import opened Tables
  import opened Join
  import opened JoinTheorems

  ghost predicate Equivalent(a: Ctx, b: Ctx) {
    a.dgn == b.dgn && Same(a.fds, b.fds) && Same(a.msgs, b.msgs) && a.gensym == b.gensym && a.genrid == b.genrid
  }

  lemma LookupsAgree(a: Ctx, b: Ctx, pid: int, fd: int, id: int)
    requires Equivalent(a, b)
    ensures ConnOf(a, pid, fd) == ConnOf(b, pid, fd) && RidOf(a, pid, fd, id) == RidOf(b, pid, fd, id)
    ensures Equivalent(AfterConnOf(a, pid, fd), AfterConnOf(b, pid, fd))
  {
    assert Stack(a.fds, (pid, fd)) == Stack(b.fds, (pid, fd));
    var k := (ConnOf(a, pid, fd), id);
    assert Stack(a.msgs, k) == Stack(b.msgs, k);
  }

  lemma SetMsgAgrees(a: Ctx, b: Ctx, pid: int, fd: int, id: int, rid: int)
    requires Equivalent(a, b)
    ensures Equivalent(SetMsg(a, pid, fd, id, rid), SetMsg(b, pid, fd, id, rid))
  {
    LookupsAgree(a, b, pid, fd, id);
    var x, y := SetMsg(a, pid, fd, id, rid).msgs, SetMsg(b, pid, fd, id, rid).msgs;
    forall k ensures Stack(x, k) == Stack(y, k) { assert Stack(a.msgs, k) == Stack(b.msgs, k); }
  }

  lemma SetFdAgrees(a: Ctx, b: Ctx, pid: int, fd: int, c: Conn)
    requires Equivalent(a, b)
    ensures Equivalent(SetFd(a, pid, fd, c), SetFd(b, pid, fd, c))
  {
    var x, y := SetFd(a, pid, fd, c).fds, SetFd(b, pid, fd, c).fds;
    forall k ensures Stack(x, k) == Stack(y, k) { assert Stack(a.fds, k) == Stack(b.fds, k); }
  }

  lemma RenamedMsgAgrees(a: Table<(Conn, int), int>, b: Table<(Conn, int), int>, from: Conn, to: Conn, k: (Conn, int))
    requires Stack(a, k) == Stack(b, k) && Stack(a, (from, k.1)) == Stack(b, (from, k.1))
    ensures Stack(RenameMsgs(a, from, to), k) == Stack(RenameMsgs(b, from, to), k)
  {
  }

  lemma RenameMsgsAgrees(a: Table<(Conn, int), int>, b: Table<(Conn, int), int>, from: Conn, to: Conn)
    requires Same(a, b)
    ensures Same(RenameMsgs(a, from, to), RenameMsgs(b, from, to))
  {
    forall k ensures Stack(RenameMsgs(a, from, to), k) == Stack(RenameMsgs(b, from, to), k) {
      RenamedMsgAgrees(a, b, from, to, k);
    }
  }

  lemma RenameFdsAgrees(a: Table<(int, int), Conn>, b: Table<(int, int), Conn>, from: Conn, to: Conn)
    requires Same(a, b)
    ensures Same(RenameFds(a, from, to), RenameFds(b, from, to))
  {
    forall k ensures Stack(RenameFds(a, from, to), k) == Stack(RenameFds(b, from, to), k) {
      assert Stack(a, k) == Stack(b, k);
    }
  }

  lemma RenameAgrees(a: Ctx, b: Ctx, from: Conn, to: Conn)
    requires Equivalent(a, b)
    ensures Equivalent(ReplaceAllConn(a, from, to), ReplaceAllConn(b, from, to))
  {
    RenameMsgsAgrees(a.msgs, b.msgs, from, to);
    RenameFdsAgrees(a.fds, b.fds, from, to);
  }

  lemma ForkAgrees(a: Ctx, b: Ctx, parent: Mid, child: Mid)
    requires Equivalent(a, b)
    ensures Equivalent(HandleFork(a, parent, child), HandleFork(b, parent, child))
  {
    forall k ensures Stack(ForkFds(a.fds, parent.pid, child.pid), k) == Stack(ForkFds(b.fds, parent.pid, child.pid), k) {
      assert Stack(a.fds, k) == Stack(b.fds, k);
      assert Stack(a.fds, (parent.pid, k.1)) == Stack(b.fds, (parent.pid, k.1));
    }
  }

  lemma NewAgrees(a: Ctx, b: Ctx, e: Event, fd: int)
    requires Equivalent(a, b)
    ensures Equivalent(NewConn(a, e, fd), NewConn(b, e, fd))
  {
    SetFdAgrees(Bump(a), Bump(b), e.pid, fd, Fresh(a));
    SetMsgAgrees(SetFd(Bump(a), e.pid, fd, Fresh(a)), SetFd(Bump(b), e.pid, fd, Fresh(b)), e.pid, fd, FAKE,
                 DgnGet(a.dgn, e.Who()));
  }

  lemma PipeAgrees(a: Ctx, b: Ctx, e: Event, fi: int, fo: int)
    requires Equivalent(a, b)
    ensures Equivalent(NewPipe(a, e, fi, fo), NewPipe(b, e, fi, fo))
  {
    var rid := DgnGet(a.dgn, e.Who());
    SetFdAgrees(Bump(Bump(a)), Bump(Bump(b)), e.pid, fi, Fresh(Bump(a)));
    var x, y := SetFd(Bump(Bump(a)), e.pid, fi, Fresh(Bump(a))), SetFd(Bump(Bump(b)), e.pid, fi, Fresh(Bump(b)));
    SetFdAgrees(x, y, e.pid, fo, Fresh(a));
    var u, v := SetFd(x, e.pid, fo, Fresh(a)), SetFd(y, e.pid, fo, Fresh(b));
    SetMsgAgrees(u, v, e.pid, fi, FAKE, rid);
    SetMsgAgrees(SetMsg(u, e.pid, fi, FAKE, rid), SetMsg(v, e.pid, fi, FAKE, rid), e.pid, fo, FAKE, rid);
  }

  lemma ReceiveAgrees(a: Ctx, b: Ctx, e: Event, fd: int, id: int, www: string)
    requires Equivalent(a, b)
    ensures Equivalent(Receive(a, e, fd, id, www), Receive(b, e, fd, id, www))
  {
    LookupsAgree(a, b, e.pid, fd, id);
    var x, y := AfterConnOf(a, e.pid, fd), AfterConnOf(b, e.pid, fd);
    LookupsAgree(x, y, e.pid, fd, id);
    if Distinguished(ConnOf(a, e.pid, fd), www) {
      var rid := a.genrid + 1;
      var dgn := DgnSet(a.dgn, e.Who(), rid);
      SetMsgAgrees(x.(genrid := rid, dgn := dgn), y.(genrid := rid, dgn := dgn), e.pid, fd, FAKE, rid);
    } else {
      var rid := RidOf(x, e.pid, fd, id);
      var dgn := DgnSet(a.dgn, e.Who(), rid);
      SetMsgAgrees(AfterConnOf(x, e.pid, fd).(dgn := dgn), AfterConnOf(y, e.pid, fd).(dgn := dgn), e.pid, fd, FAKE, rid);
    }
  }

  lemma NewStepAgrees(a: Ctx, b: Ctx, e: Event, fd: int, www: string)
    requires Equivalent(a, b) && (e.what == Open(fd) || e.what == Socket(fd))
    ensures Equivalent(Step(a, e, www), Step(b, e, www))
  {
    NewAgrees(a, b, e, fd);
  }

  lemma PipeStepAgrees(a: Ctx, b: Ctx, e: Event, fi: int, fo: int, www: string)
    requires Equivalent(a, b) && e.what == Pipe(fi, fo)
    ensures Equivalent(Step(a, e, www), Step(b, e, www))
  {
    PipeAgrees(a, b, e, fi, fo);
  }

  lemma ReceiveStepAgrees(a: Ctx, b: Ctx, e: Event, fd: int, id: int, www: string)
    requires Equivalent(a, b) && e.what == MessageRecv(fd, id)
    ensures Equivalent(Step(a, e, www), Step(b, e, www))
  {
    assert Step(a, e, www) == Receive(a, e, fd, id, www) && Step(b, e, www) == Receive(b, e, fd, id, www);
    ReceiveAgrees(a, b, e, fd, id, www);
  }

  lemma ReadStepAgrees(a: Ctx, b: Ctx, e: Event, fd: int, www: string)
    requires Equivalent(a, b) && (e.what == Read(fd) || e.what == Poll(false, fd))
    ensures Equivalent(Step(a, e, www), Step(b, e, www))
  {
    LookupsAgree(a, b, e.pid, fd, FAKE);
  }

  lemma DupStepAgrees(a: Ctx, b: Ctx, e: Event, oldfd: int, newfd: int, www: string)
    requires Equivalent(a, b) && e.what == Dup(oldfd, newfd)
    ensures Equivalent(Step(a, e, www), Step(b, e, www))
  {
    LookupsAgree(a, b, e.pid, oldfd, FAKE);
    SetFdAgrees(AfterConnOf(a, e.pid, oldfd), AfterConnOf(b, e.pid, oldfd), e.pid, newfd, ConnOf(a, e.pid, oldfd));
  }

  lemma ConnectStepAgrees(a: Ctx, b: Ctx, e: Event, fd: int, rdv: string, www: string)
    requires Equivalent(a, b) && e.what == Connect(fd, rdv)
    ensures Equivalent(Step(a, e, www), Step(b, e, www))
  {
    LookupsAgree(a, b, e.pid, fd, FAKE);
    ConnectStep(a, e, fd, rdv, www);
    ConnectStep(b, e, fd, rdv, www);
    RenameAgrees(AfterConnOf(a, e.pid, fd), AfterConnOf(b, e.pid, fd), ConnOf(a, e.pid, fd), HostPort(rdv));
  }

  lemma InitStepAgrees(a: Ctx, b: Ctx, e: Event, fd: int, www: string)
    requires Equivalent(a, b) && e.what == ProtocolInit(fd)
    ensures Equivalent(Step(a, e, www), Step(b, e, www))
  {
    LookupsAgree(a, b, e.pid, fd, FAKE);
    InitStep(a, e, fd, www);
    InitStep(b, e, fd, www);
    RenameAgrees(AfterConnOf(a, e.pid, fd), AfterConnOf(b, e.pid, fd), ConnOf(a, e.pid, fd), ConnOf(a, e.pid, fd));
  }

  lemma AcceptStepAgrees(a: Ctx, b: Ctx, e: Event, fd: int, rdv: string, www: string)
    requires Equivalent(a, b) && e.what == Accept(fd, rdv)
    ensures Equivalent(Step(a, e, www), Step(b, e, www))
  {
    SetFdAgrees(a, b, e.pid, fd, HostPort(rdv));
  }

  lemma SendStepAgrees(a: Ctx, b: Ctx, e: Event, fd: int, id: int, www: string)
    requires Equivalent(a, b) && e.what == MessageSend(fd, id)
    ensures Equivalent(Step(a, e, www), Step(b, e, www))
  {
    SetMsgAgrees(a, b, e.pid, fd, id, DgnGet(a.dgn, e.Who()));
  }

  /** Events do not tell equivalent contexts apart. */
  lemma StepAgrees(a: Ctx, b: Ctx, e: Event, www: string)
    requires Equivalent(a, b)
    ensures Equivalent(Step(a, e, www), Step(b, e, www))
  {
    match e.what
    case Open(fd) => NewStepAgrees(a, b, e, fd, www);
    case Socket(fd) => NewStepAgrees(a, b, e, fd, www);
    case Pipe(fi, fo) => PipeStepAgrees(a, b, e, fi, fo, www);
    case MessageRecv(fd, id) => ReceiveStepAgrees(a, b, e, fd, id, www);
    case Read(fd) => ReadStepAgrees(a, b, e, fd, www);
    case Poll(timeout, fd) => if !timeout { ReadStepAgrees(a, b, e, fd, www); }
    case Dup(oldfd, newfd) => DupStepAgrees(a, b, e, oldfd, newfd, www);
    case Connect(fd, rdv) => ConnectStepAgrees(a, b, e, fd, rdv, www);
    case ProtocolInit(fd) => InitStepAgrees(a, b, e, fd, www);
    case Fork(ppid, ptid) => ForkAgrees(a, b, Mid(ppid, ptid), e.Who());
    case Accept(fd, rdv) => AcceptStepAgrees(a, b, e, fd, rdv, www);
    case MessageSend(fd, id) => SendStepAgrees(a, b, e, fd, id, www);
    case _ =>
  }
}
