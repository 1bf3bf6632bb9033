/**
  Why a thread is working for a request: from every place that holds a request a chain of events
  leads back to the one event that created it.
 */
module Attribution {
  import opened Bytes
  import opened Tables
  import opened Join
  import opened JoinTheorems

  /** The places a request can be. */
  datatype Loc = Thread(mid: Mid) | Slot(conn: Conn, msgid: int)

  ghost predicate Holds(ctx: Ctx, l: Loc, r: int) {
    match l
    case Thread(m) => Dgn(m, r) in ctx.dgn
    case Slot(c, id) => r in Stack(ctx.msgs, (c, id))
  }

  /** The descriptor of the event is open on `c`. */
  predicate OpenOn(ctx: Ctx, e: Event, fd: int, c: Conn) { Find(ctx.fds, (e.pid, fd)) == Some(c) }

  /**
    How a request can get from one place to another in one event: it stays; a child starts with its
    parent's; exec keeps the process's; a thread writes it to a connection or passes it to one it
    makes; a thread reads it from a connection it has open; a connection is renamed.
   */
  ghost predicate Hop(ctx: Ctx, e: Event, a: Loc, b: Loc, www: string) {
    || a == b
    || match e.what
       case Fork(ppid, ptid) => a == Thread(Mid(ppid, ptid)) && b == Thread(e.Who())
       case Exec(_) => a.Thread? && a.mid.pid == e.pid && b == Thread(e.Who())
       case Read(fd) => a.Slot? && OpenOn(ctx, e, fd, a.conn) && a.msgid == FAKE && b == Thread(e.Who())
       case Poll(timeout, fd) =>
         !timeout && a.Slot? && OpenOn(ctx, e, fd, a.conn) && a.msgid == FAKE && b == Thread(e.Who())
       case Open(_) => a == Thread(e.Who()) && b == Slot(GenSym(ctx.gensym + 1), FAKE)
       case Socket(_) => a == Thread(e.Who()) && b == Slot(GenSym(ctx.gensym + 1), FAKE)
       case Pipe(_, _) =>
         a == Thread(e.Who()) && b in {Slot(GenSym(ctx.gensym + 1), FAKE), Slot(GenSym(ctx.gensym + 2), FAKE)}
       case Connect(fd, rdv) => a.Slot? && OpenOn(ctx, e, fd, a.conn) && b == Slot(HostPort(rdv), a.msgid)
       case MessageSend(fd, msgid) => a == Thread(e.Who()) && b == Slot(ConnOf(ctx, e.pid, fd), msgid)
       case MessageRecv(fd, msgid) =>
         a.Slot? && OpenOn(ctx, e, fd, a.conn) && a.msgid == msgid && !Distinguished(a.conn, www)
         && (b == Thread(e.Who()) || b == Slot(a.conn, FAKE))
       case _ => false
  }

  /** The event is a request head: a message received on the web server's port. It makes `r`. */
  ghost predicate Born(ctx: Ctx, e: Event, b: Loc, r: int, www: string) {
    && e.what.MessageRecv? && r == ctx.genrid + 1
    && exists c :: OpenOn(ctx, e, e.what.mfd, c) && Distinguished(c, www) && (b == Thread(e.Who()) || b == Slot(c, FAKE))
  }

  // ------------------------------------------------------------------ one event

  lemma {:induction false} DgnGetHeld(dgn: seq<Dgn>, mid: Mid)
    ensures DgnGet(dgn, mid) != NONE ==> Dgn(mid, DgnGet(dgn, mid)) in dgn
  {
    if dgn != [] {
      DgnGetHeld(dgn[1..], mid);
      assert dgn[0] in dgn;
    }
  }

  lemma DgnSetHeld(dgn: seq<Dgn>, mid: Mid, rid: int, d: Dgn)
    requires d in DgnSet(dgn, mid, rid)
    ensures d == Dgn(mid, rid) || (d in dgn && d.mid != mid)
  {
    if Listed(dgn, mid) {
      var i :| 0 <= i < |dgn| && Designate(dgn, mid, rid)[i] == d;
      assert dgn[i] in dgn;
    }
  }

  lemma CollapseHeld(dgn: seq<Dgn>, mid: Mid, d: Dgn) returns (was: Dgn)
    requires d in Collapse(dgn, mid)
    ensures was in dgn && was.rid == d.rid && (was == d || (was.mid.pid == mid.pid && d.mid == mid))
  {
    var i :| 0 <= i < |dgn| && Collapse(dgn, mid)[i] == d;
    was := dgn[i];
  }

  lemma SetMsgHeld(ctx: Ctx, pid: int, fd: int, msgid: int, rid: int, k: (Conn, int), r: int)
    requires r in Stack(SetMsg(ctx, pid, fd, msgid, rid).msgs, k)
    ensures r in Stack(ctx.msgs, k) || (r == rid && k == (ConnOf(ctx, pid, fd), msgid))
  {
  }

  lemma RenameHeld(msgs: Table<(Conn, int), int>, from: Conn, to: Conn, k: (Conn, int), r: int)
    requires r in Stack(RenameMsgs(msgs, from, to), k)
    ensures r in Stack(msgs, k) || (k.0 == to && r in Stack(msgs, (from, k.1)))
  {
    ReverseHolds(Stack(msgs, (from, k.1)), r);
  }

  lemma ReverseHolds(s: seq<int>, r: int)
    ensures r in Reverse(s) ==> r in s
  {
    if r in Reverse(s) {
      var i :| 0 <= i < |s| && Reverse(s)[i] == r;
      assert s[|s| - 1 - i] == r;
    }
  }

  /** A request read through a descriptor was in the slot of an open connection. */
  lemma RidOfHeld(ctx: Ctx, e: Event, fd: int, msgid: int)
    requires Sane(ctx) && RidOf(ctx, e.pid, fd, msgid) != NONE
    ensures var c := ConnOf(ctx, e.pid, fd);
            OpenOn(ctx, e, fd, c) && RidOf(ctx, e.pid, fd, msgid) in Stack(ctx.msgs, (c, msgid))
  {
    assert Stack(ctx.msgs, (ConnOf(ctx, e.pid, fd), msgid)) != [];
  }

  lemma SourceOfThread(ctx: Ctx, e: Event, www: string, m: Mid, r: int) returns (a: Loc)
    requires Sane(ctx) && r != NONE && SetsThread(e.what) && Dgn(m, r) in Step(ctx, e, www).dgn
    ensures Hop(ctx, e, a, Thread(m), www) && Holds(ctx, a, r)
  {
    a := Thread(m);
    match e.what
    case Fork(ppid, ptid) =>
      DgnSetHeld(ctx.dgn, e.Who(), DgnGet(ctx.dgn, Mid(ppid, ptid)), Dgn(m, r));
      DgnGetHeld(ctx.dgn, Mid(ppid, ptid));
      if Dgn(m, r) !in ctx.dgn { a := Thread(Mid(ppid, ptid)); }
    case Exec(_) =>
      var was := CollapseHeld(ctx.dgn, e.Who(), Dgn(m, r));
      a := Thread(was.mid);
    case Read(fd) => a := SourceOfRead(ctx, e, fd, www, m, r);
    case Poll(_, fd) => a := SourceOfRead(ctx, e, fd, www, m, r);
    case _ => DgnSetHeld(ctx.dgn, e.Who(), NONE, Dgn(m, r));
  }

  lemma SourceOfRead(ctx: Ctx, e: Event, fd: int, www: string, m: Mid, r: int) returns (a: Loc)
    requires Sane(ctx) && r != NONE && (e.what == Read(fd) || e.what == Poll(false, fd))
    requires Dgn(m, r) in Step(ctx, e, www).dgn
    ensures Hop(ctx, e, a, Thread(m), www) && Holds(ctx, a, r)
  {
    a := Thread(m);
    if Dgn(m, r) !in ctx.dgn {
      DgnSetHeld(ctx.dgn, e.Who(), RidOf(ctx, e.pid, fd, FAKE), Dgn(m, r));
      RidOfHeld(ctx, e, fd, FAKE);
      a := Slot(ConnOf(ctx, e.pid, fd), FAKE);
    }
  }

  lemma SourceOfNew(ctx: Ctx, e: Event, fd: int, c: Conn, id: int, r: int) returns (a: Loc)
    requires r != NONE && r in Stack(NewConn(ctx, e, fd).msgs, (c, id))
    ensures Holds(ctx, a, r)
    ensures a == Slot(c, id) || (a == Thread(e.Who()) && (c, id) == (GenSym(ctx.gensym + 1), FAKE))
  {
    a := Slot(c, id);
    if !Holds(ctx, a, r) {
      var named := SetFd(Bump(ctx), e.pid, fd, Fresh(ctx));
      SetMsgHeld(named, e.pid, fd, FAKE, DgnGet(ctx.dgn, e.Who()), (c, id), r);
      DgnGetHeld(ctx.dgn, e.Who());
      a := Thread(e.Who());
    }
  }

  lemma SourceOfPipe(ctx: Ctx, e: Event, fi: int, fo: int, c: Conn, id: int, r: int) returns (a: Loc)
    requires r != NONE && r in Stack(NewPipe(ctx, e, fi, fo).msgs, (c, id))
    ensures Holds(ctx, a, r)
    ensures a == Slot(c, id) || (a == Thread(e.Who()) && id == FAKE
                                 && (c == GenSym(ctx.gensym + 1) || c == GenSym(ctx.gensym + 2)))
  {
    a := Slot(c, id);
    if !Holds(ctx, a, r) {
      var rid := DgnGet(ctx.dgn, e.Who());
      var named := SetFd(SetFd(Bump(Bump(ctx)), e.pid, fi, Fresh(Bump(ctx))), e.pid, fo, Fresh(ctx));
      TwoSlotsHeld(named, e.pid, fi, fo, rid, (c, id), r);
      DgnGetHeld(ctx.dgn, e.Who());
      a := Thread(e.Who());
    }
  }

  lemma TwoSlotsHeld(named: Ctx, pid: int, fi: int, fo: int, rid: int, k: (Conn, int), r: int)
    requires Find(named.fds, (pid, fi)).Some? && Find(named.fds, (pid, fo)).Some?
    requires r in Stack(SetMsg(SetMsg(named, pid, fi, FAKE, rid), pid, fo, FAKE, rid).msgs, k)
    ensures r in Stack(named.msgs, k) || (r == rid && k.1 == FAKE && k.0 in {ConnOf(named, pid, fi), ConnOf(named, pid, fo)})
  {
    var first := SetMsg(named, pid, fi, FAKE, rid);
    SetMsgHeld(first, pid, fo, FAKE, rid, k, r);
    if r in Stack(first.msgs, k) { SetMsgHeld(named, pid, fi, FAKE, rid, k, r); }
  }

  /** The request a receive hands out is new, or comes from the message's slot. */
  lemma ReceivedFrom(ctx: Ctx, e: Event, www: string, fd: int, msgid: int) returns (rid: int)
    requires Sane(ctx) && e.what == MessageRecv(fd, msgid)
    ensures Step(ctx, e, www).dgn == DgnSet(ctx.dgn, e.Who(), rid)
    ensures forall k, r | r in Stack(Step(ctx, e, www).msgs, k) ::
              r in Stack(ctx.msgs, k) || (r == rid && k.1 == FAKE && (rid != NONE ==> OpenOn(ctx, e, fd, k.0)))
    ensures rid != NONE ==>
              var c := ConnOf(ctx, e.pid, fd);
              && OpenOn(ctx, e, fd, c)
              && if Distinguished(c, www) then rid == ctx.genrid + 1 else Holds(ctx, Slot(c, msgid), rid)
  {
    var conn, looked := ConnOf(ctx, e.pid, fd), AfterConnOf(ctx, e.pid, fd);
    ConnOfSane(ctx, e.pid, fd);
    var numbered;
    if Distinguished(conn, www) {
      rid, numbered := ctx.genrid + 1, looked.(genrid := ctx.genrid + 1);
    } else {
      rid, numbered := RidOf(looked, e.pid, fd, msgid), AfterConnOf(looked, e.pid, fd);
      if rid != NONE { RidOfHeld(looked, e, fd, msgid); }
    }
    var handed := numbered.(dgn := DgnSet(ctx.dgn, e.Who(), rid));
    assert Step(ctx, e, www) == SetMsg(handed, e.pid, fd, FAKE, rid);
    forall k, r | r in Stack(Step(ctx, e, www).msgs, k)
      ensures r in Stack(ctx.msgs, k) || (r == rid && k.1 == FAKE && (rid != NONE ==> OpenOn(ctx, e, fd, k.0)))
    {
      SetMsgHeld(handed, e.pid, fd, FAKE, rid, k, r);
    }
  }

  lemma SourceOfReceive(ctx: Ctx, e: Event, www: string, b: Loc, r: int) returns (a: Loc)
    requires Sane(ctx) && r != NONE && e.what.MessageRecv? && Holds(Step(ctx, e, www), b, r)
    ensures Born(ctx, e, b, r, www) || (Hop(ctx, e, a, b, www) && Holds(ctx, a, r))
  {
    a := b;
    if !Holds(ctx, b, r) {
      var fd, msgid := e.what.mfd, e.what.msgid;
      var conn := ConnOf(ctx, e.pid, fd);
      var rid := ReceivedFrom(ctx, e, www, fd, msgid);
      if b.Thread? { DgnSetHeld(ctx.dgn, e.Who(), rid, Dgn(b.mid, r)); }
      assert r == rid && (b == Thread(e.Who()) || b == Slot(conn, FAKE));
      if Distinguished(conn, www) {
        assert OpenOn(ctx, e, e.what.mfd, conn);
      } else {
        a := Slot(conn, msgid);
      }
    }
  }

  /** Whatever a place holds after an event was made by it, or came from a place that held it before. */
  lemma Source(ctx: Ctx, e: Event, www: string, b: Loc, r: int) returns (a: Loc)
    requires Sane(ctx) && r != NONE && Holds(Step(ctx, e, www), b, r)
    ensures Born(ctx, e, b, r, www) || (Hop(ctx, e, a, b, www) && Holds(ctx, a, r))
  {
    a := b;
    if e.what.MessageRecv? {
      a := SourceOfReceive(ctx, e, www, b, r);
    } else if b.Thread? && SetsThread(e.what) {
      a := SourceOfThread(ctx, e, www, b.mid, r);
    } else if b.Slot? {
      a := SourceOfSlot(ctx, e, www, b.conn, b.msgid, r);
    }
  }

  lemma SourceOfSlot(ctx: Ctx, e: Event, www: string, c: Conn, id: int, r: int) returns (a: Loc)
    requires Sane(ctx) && r != NONE && !e.what.MessageRecv? && r in Stack(Step(ctx, e, www).msgs, (c, id))
    ensures Hop(ctx, e, a, Slot(c, id), www) && Holds(ctx, a, r)
  {
    a := Slot(c, id);
    match e.what
    case Open(fd) => a := SourceOfNew(ctx, e, fd, c, id, r);
    case Socket(fd) => a := SourceOfNew(ctx, e, fd, c, id, r);
    case Pipe(fi, fo) => a := SourceOfPipe(ctx, e, fi, fo, c, id, r);
    case Connect(fd, rdv) => a := SourceOfConnect(ctx, e, fd, rdv, www, c, id, r);
    case MessageSend(fd, msgid) => a := SourceOfSend(ctx, e, fd, msgid, www, c, id, r);
    case _ => SlotUntouched(ctx, e, www, c, id, r);
  }

  lemma SourceOfConnect(ctx: Ctx, e: Event, fd: int, rdv: string, www: string, c: Conn, id: int, r: int) returns (a: Loc)
    requires Sane(ctx) && e.what == Connect(fd, rdv) && r in Stack(Step(ctx, e, www).msgs, (c, id))
    ensures Hop(ctx, e, a, Slot(c, id), www) && Holds(ctx, a, r)
  {
    ConnectStep(ctx, e, fd, rdv, www);
    a := SourceOfRename(ctx, e, fd, rdv, c, id, r);
  }

  lemma SlotUntouched(ctx: Ctx, e: Event, www: string, c: Conn, id: int, r: int)
    requires !e.what.Open? && !e.what.Socket? && !e.what.Pipe? && !e.what.Connect? && !e.what.MessageSend? && !e.what.MessageRecv?
    requires r in Stack(Step(ctx, e, www).msgs, (c, id))
    ensures Hop(ctx, e, Slot(c, id), Slot(c, id), www) && Holds(ctx, Slot(c, id), r)
  {
    if e.what.ProtocolInit? {
      InitStep(ctx, e, e.what.pfd, www);
    } else {
      assert Step(ctx, e, www).msgs == ctx.msgs;
    }
  }

  lemma SourceOfSend(ctx: Ctx, e: Event, fd: int, msgid: int, www: string, c: Conn, id: int, r: int) returns (a: Loc)
    requires e.what == MessageSend(fd, msgid) && r != NONE && r in Stack(Step(ctx, e, www).msgs, (c, id))
    ensures Hop(ctx, e, a, Slot(c, id), www) && Holds(ctx, a, r)
  {
    a := Slot(c, id);
    if !Holds(ctx, a, r) {
      SetMsgHeld(ctx, e.pid, fd, msgid, DgnGet(ctx.dgn, e.Who()), (c, id), r);
      DgnGetHeld(ctx.dgn, e.Who());
      a := Thread(e.Who());
    }
  }

  lemma SourceOfRename(ctx: Ctx, e: Event, fd: int, rdv: string, c: Conn, id: int, r: int) returns (a: Loc)
    requires Sane(ctx) && r in Stack(RenameMsgs(ctx.msgs, ConnOf(ctx, e.pid, fd), HostPort(rdv)), (c, id))
    ensures Holds(ctx, a, r)
    ensures a == Slot(c, id) || (a.Slot? && OpenOn(ctx, e, fd, a.conn) && a.msgid == id && c == HostPort(rdv))
  {
    var from := ConnOf(ctx, e.pid, fd);
    RenameHeld(ctx.msgs, from, HostPort(rdv), (c, id), r);
    if r in Stack(ctx.msgs, (c, id)) { return Slot(c, id); }
    assert Stack(ctx.msgs, (from, id)) != [];
    a := Slot(from, id);
  }

  // ------------------------------------------------------------------ whole runs

  /**
    `path[j]` is where request `r` is just after event `head + j`: event `head` makes it, each later
    event leaves it in place or moves it by a legitimate hop, and after `n` events it is at `b`.
   */
  ghost predicate Trail(es: seq<Event>, n: nat, www: string, b: Loc, r: int, head: nat, path: seq<Loc>) {
    && head < n <= |es| && |path| == n - head && path[|path| - 1] == b
    && Born(StateAt(es, head, www), es[head], path[0], r, www)
    && (forall j | 0 < j < |path| :: Hop(StateAt(es, head + j, www), es[head + j], path[j - 1], path[j], www))
    && (forall j | 0 <= j < |path| :: Holds(StateAt(es, head + j + 1, www), path[j], r))
  }

  /** Attribution is sound over whole runs. */
  lemma {:induction false} EveryRequestHasATrail(es: seq<Event>, n: nat, www: string, b: Loc, r: int)
    returns (head: nat, path: seq<Loc>)
    requires n <= |es| && r != NONE && Holds(StateAt(es, n, www), b, r)
    ensures Trail(es, n, www, b, r, head, path)
  {
    assert n > 0;
    var before, e := StateAt(es, n - 1, www), es[n - 1];
    NoInventedRequests(es, n - 1, www);
    var a := Source(before, e, www, b, r);
    if Born(before, e, b, r, www) {
      head, path := n - 1, [b];
    } else {
      head, path := EveryRequestHasATrail(es, n - 1, www, a, r);
      ghost var longer := path + [b];
      TrailExtends(es, n, www, a, b, r, head, path);
      path := longer;
    }
  }

  lemma TrailExtends(es: seq<Event>, n: nat, www: string, a: Loc, b: Loc, r: int, head: nat, path: seq<Loc>)
    requires 0 < n <= |es| && Trail(es, n - 1, www, a, r, head, path)
    requires Hop(StateAt(es, n - 1, www), es[n - 1], a, b, www) && Holds(StateAt(es, n, www), b, r)
    ensures Trail(es, n, www, b, r, head, path + [b])
  {
    var longer := path + [b];
    forall j | 0 < j < |longer| ensures Hop(StateAt(es, head + j, www), es[head + j], longer[j - 1], longer[j], www) {
      if j == |path| {
        assert longer[j - 1] == a && head + j == n - 1;
      } else {
        assert longer[j - 1] == path[j - 1] && longer[j] == path[j];
      }
    }
    HoldsAlong(es, n, www, b, r, head, path);
  }

  lemma HoldsAlong(es: seq<Event>, n: nat, www: string, b: Loc, r: int, head: nat, path: seq<Loc>)
    requires head + |path| + 1 == n <= |es| && Holds(StateAt(es, n, www), b, r)
    requires forall j | 0 <= j < |path| :: Holds(StateAt(es, head + j + 1, www), path[j], r)
    ensures forall j | 0 <= j < |path| + 1 :: Holds(StateAt(es, head + j + 1, www), (path + [b])[j], r)
  {
  }

  lemma {:induction false} NumbersGrow(es: seq<Event>, m: nat, n: nat, www: string)
    requires m <= n <= |es|
    ensures StateAt(es, m, www).genrid <= StateAt(es, n, www).genrid
    decreases n
  {
    if m < n {
      NumbersGrow(es, m, n - 1, www);
      StepCounts(StateAt(es, n - 1, www), es[n - 1], www);
    }
  }

  lemma BornNumber(ctx: Ctx, e: Event, www: string, b: Loc, r: int)
    requires Born(ctx, e, b, r, www)
    ensures Step(ctx, e, www).genrid == r
  {
  }

  /** A request has one head: no two events of a log make the same one. */
  lemma OneHead(es: seq<Event>, h: nat, k: nat, www: string, b: Loc, c: Loc, r: int)
    requires h < |es| && k < |es|
    requires Born(StateAt(es, h, www), es[h], b, r, www) && Born(StateAt(es, k, www), es[k], c, r, www)
    ensures h == k
  {
    BornNumber(StateAt(es, h, www), es[h], www, b, r);
    BornNumber(StateAt(es, k, www), es[k], www, c, r);
    if h < k {
      NumbersGrow(es, h + 1, k, www);
    } else if k < h {
      NumbersGrow(es, k + 1, h, www);
    }
  }
}
