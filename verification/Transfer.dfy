/** Requests that must arrive: messages, descriptors handed to children, renamed connections. */
module Transfer {
  import opened Bytes
  import opened Tables
  import opened Join
  import opened JoinTheorems

  // ------------------------------------------------------------------ threads

  lemma {:induction false} DgnGetDesignate(dgn: seq<Dgn>, mid: Mid, rid: int, m: Mid)
    ensures DgnGet(Designate(dgn, mid, rid), m) ==
              if m == mid then (if Listed(dgn, mid) then rid else NONE) else DgnGet(dgn, m)
  {
    if dgn != [] {
      DgnGetDesignate(dgn[1..], mid, rid, m);
      assert Designate(dgn, mid, rid)[1..] == Designate(dgn[1..], mid, rid);
      if Listed(dgn[1..], mid) {
        var i :| 0 <= i < |dgn[1..]| && dgn[1..][i].mid == mid;
        assert dgn[i + 1].mid == mid;
      } else if Listed(dgn, mid) {
        var i :| 0 <= i < |dgn| && dgn[i].mid == mid;
        assert forall j | 0 <= j < |dgn[1..]| :: dgn[1..][j] == dgn[j + 1];
        assert i == 0;
      }
    }
  }

  lemma {:induction false} DgnGetAppend(dgn: seq<Dgn>, d: Dgn, m: Mid)
    ensures DgnGet(dgn + [d], m) == if DgnGet(dgn, m) != NONE then DgnGet(dgn, m) else if d.mid == m then d.rid else NONE
  {
    if dgn == [] {
      assert dgn + [d] == [d] && DgnGet([d][1..], m) == NONE;
    } else {
      assert (dgn + [d])[1..] == dgn[1..] + [d];
      DgnGetAppend(dgn[1..], d, m);
    }
  }

  lemma {:induction false} UnlistedHasNone(dgn: seq<Dgn>, m: Mid)
    requires !Listed(dgn, m)
    ensures DgnGet(dgn, m) == NONE
  {
    if dgn != [] {
      forall i | 0 <= i < |dgn[1..]| ensures dgn[1..][i].mid != m { assert dgn[i + 1].mid != m; }
      UnlistedHasNone(dgn[1..], m);
      assert dgn[0].mid != m;
    }
  }

  /** Setting a thread's request is what looking it up then finds, and no other thread notices. */
  lemma DgnGetSet(dgn: seq<Dgn>, mid: Mid, rid: int, m: Mid)
    ensures DgnGet(DgnSet(dgn, mid, rid), m) == if m == mid then rid else DgnGet(dgn, m)
  {
    if Listed(dgn, mid) {
      DgnGetDesignate(dgn, mid, rid, m);
    } else {
      UnlistedHasNone(dgn, mid);
      DgnGetAppend(dgn, Dgn(mid, rid), m);
    }
  }

  // ------------------------------------------------------------------ messages

  /** The event writes, or renames into or out of, the slot of message `id` on `c`. */
  predicate Disturbs(ctx: Ctx, e: Event, c: Conn, id: int) {
    match e.what
    case MessageSend(fd, msgid) => ConnOf(ctx, e.pid, fd) == c && msgid == id
    case MessageRecv(fd, _) => ConnOf(ctx, e.pid, fd) == c && id == FAKE
    case Connect(fd, rdv) =>
      ConnOf(ctx, e.pid, fd) != HostPort(rdv)
      && (ConnOf(ctx, e.pid, fd) == c || (HostPort(rdv) == c && Stack(ctx.msgs, (ConnOf(ctx, e.pid, fd), id)) != []))
    case _ => false
  }

  lemma SlotKept(ctx: Ctx, e: Event, www: string, c: Conn, id: int)
    requires Known(c, ctx.gensym) && !Disturbs(ctx, e, c, id)
    ensures Stack(Step(ctx, e, www).msgs, (c, id)) == Stack(ctx.msgs, (c, id))
  {
    if e.what.Open? {
      NewStepKeepsSlot(ctx, e, e.what.ofd, www, c, id);
    } else if e.what.Socket? {
      NewStepKeepsSlot(ctx, e, e.what.sfd, www, c, id);
    } else if e.what.Pipe? {
      PipeStepKeepsSlot(ctx, e, e.what.fi, e.what.fo, www, c, id);
    } else if e.what.MessageRecv? {
      ReceiveKeepsSlot(ctx, e, e.what.mfd, e.what.msgid, www, c, id);
    } else if e.what.MessageSend? {
      SendKeepsSlot(ctx, e.pid, e.what.mfd, e.what.msgid, DgnGet(ctx.dgn, e.Who()), c, id);
    } else if e.what.Connect? {
      RenameKeepsSlot(ctx, ConnOf(ctx, e.pid, e.what.confd), HostPort(e.what.crdv), c, id);
    } else if e.what.ProtocolInit? {
      RenameKeepsSlot(ctx, ConnOf(ctx, e.pid, e.what.pfd), ConnOf(ctx, e.pid, e.what.pfd), c, id);
    } else {
      OtherKeepsSlots(ctx, e, www);
    }
  }

  lemma OtherKeepsSlots(ctx: Ctx, e: Event, www: string)
    requires !MakesConn(e.what) && !e.what.MessageRecv? && !e.what.MessageSend? && !e.what.Connect? && !e.what.ProtocolInit?
    ensures Step(ctx, e, www).msgs == ctx.msgs
  {
  }

  lemma NewStepKeepsSlot(ctx: Ctx, e: Event, fd: int, www: string, c: Conn, id: int)
    requires Known(c, ctx.gensym) && (e.what == Open(fd) || e.what == Socket(fd))
    ensures Stack(Step(ctx, e, www).msgs, (c, id)) == Stack(ctx.msgs, (c, id))
  {
    NewKeepsSlot(ctx, e, fd, c, id);
  }

  lemma PipeStepKeepsSlot(ctx: Ctx, e: Event, fi: int, fo: int, www: string, c: Conn, id: int)
    requires Known(c, ctx.gensym) && e.what == Pipe(fi, fo)
    ensures Stack(Step(ctx, e, www).msgs, (c, id)) == Stack(ctx.msgs, (c, id))
  {
    PipeKeepsSlot(ctx, e, fi, fo, c, id);
  }

  lemma RenameKeepsSlot(ctx: Ctx, from: Conn, to: Conn, c: Conn, id: int)
    requires from == to || (from != c && (to == c ==> Stack(ctx.msgs, (from, id)) == []))
    ensures Stack(RenameMsgs(ctx.msgs, from, to), (c, id)) == Stack(ctx.msgs, (c, id))
  {
    var moved := Stack(ctx.msgs, (from, id));
    assert moved == [] ==> Reverse(moved) == [];
  }

  lemma SendKeepsSlot(ctx: Ctx, pid: int, fd: int, msgid: int, rid: int, c: Conn, id: int)
    requires (ConnOf(ctx, pid, fd), msgid) != (c, id)
    ensures Stack(SetMsg(ctx, pid, fd, msgid, rid).msgs, (c, id)) == Stack(ctx.msgs, (c, id))
  {
  }

  lemma NewKeepsSlot(ctx: Ctx, e: Event, fd: int, c: Conn, id: int)
    requires Known(c, ctx.gensym)
    ensures Stack(NewConn(ctx, e, fd).msgs, (c, id)) == Stack(ctx.msgs, (c, id))
  {
    assert Find(SetFd(Bump(ctx), e.pid, fd, Fresh(ctx)).fds, (e.pid, fd)) == Some(Fresh(ctx));
  }

  lemma PipeKeepsSlot(ctx: Ctx, e: Event, fi: int, fo: int, c: Conn, id: int)
    requires Known(c, ctx.gensym)
    ensures Stack(NewPipe(ctx, e, fi, fo).msgs, (c, id)) == Stack(ctx.msgs, (c, id))
  {
    var one := SetFd(Bump(Bump(ctx)), e.pid, fi, Fresh(Bump(ctx)));
    var named := SetFd(one, e.pid, fo, Fresh(ctx));
    assert Find(one.fds, (e.pid, fi)) == Some(Fresh(Bump(ctx)));
    assert Find(named.fds, (e.pid, fo)) == Some(Fresh(ctx));
    assert fi != fo ==> Find(named.fds, (e.pid, fi)) == Find(one.fds, (e.pid, fi));
  }

  lemma ReceiveKeepsSlot(ctx: Ctx, e: Event, fd: int, msgid: int, www: string, c: Conn, id: int)
    requires Known(c, ctx.gensym) && (ConnOf(ctx, e.pid, fd) != c || id != FAKE)
    ensures Stack(Receive(ctx, e, fd, msgid, www).msgs, (c, id)) == Stack(ctx.msgs, (c, id))
  {
  }

  /** The slot keeps its request over a stretch of a run in which nothing disturbs it. */
  lemma {:induction false} SlotKeptOver(es: seq<Event>, i: nat, j: nat, www: string, c: Conn, id: int)
    requires i <= j <= |es| && Known(c, StateAt(es, i, www).gensym)
    requires forall k | i <= k < j :: !Disturbs(StateAt(es, k, www), es[k], c, id)
    ensures Known(c, StateAt(es, j, www).gensym)
    ensures Stack(StateAt(es, j, www).msgs, (c, id)) == Stack(StateAt(es, i, www).msgs, (c, id))
    decreases j
  {
    if i < j {
      SlotKeptOver(es, i, j - 1, www, c, id);
      SlotKept(StateAt(es, j - 1, www), es[j - 1], www, c, id);
      StepCounts(StateAt(es, j - 1, www), es[j - 1], www);
    }
  }

  lemma SendSets(ctx: Ctx, e: Event, fd: int, id: int, www: string, c: Conn)
    requires e.what == MessageSend(fd, id) && ConnOf(ctx, e.pid, fd) == c
    ensures Find(Step(ctx, e, www).msgs, (c, id)) == Some(DgnGet(ctx.dgn, e.Who()))
  {
  }

  lemma ReceiveTakes(ctx: Ctx, e: Event, fd: int, id: int, www: string, c: Conn)
    requires e.what == MessageRecv(fd, id) && Find(ctx.fds, (e.pid, fd)) == Some(c) && !Distinguished(c, www)
    requires Find(ctx.msgs, (c, id)).Some?
    ensures DgnGet(Step(ctx, e, www).dgn, e.Who()) == Find(ctx.msgs, (c, id)).value
    ensures Find(Step(ctx, e, www).msgs, (c, FAKE)) == Find(ctx.msgs, (c, id))
  {
    DgnGetSet(ctx.dgn, e.Who(), Find(ctx.msgs, (c, id)).value, e.Who());
  }

  /**
    Causal transfer: a thread working for `r` sends message `id` on a connection; whoever receives
    `id` on that connection later, in any process, with the slot left alone in between, works for
    `r` from then on, and so does the connection.
   */
  lemma CausalTransfer(es: seq<Event>, i: nat, j: nat, www: string, fd: int, fd': int, id: int, c: Conn)
    requires i < j < |es| && es[i].what == MessageSend(fd, id) && es[j].what == MessageRecv(fd', id)
    requires Find(StateAt(es, i, www).fds, (es[i].pid, fd)) == Some(c)
    requires Find(StateAt(es, j, www).fds, (es[j].pid, fd')) == Some(c) && !Distinguished(c, www)
    requires forall k | i < k < j :: !Disturbs(StateAt(es, k, www), es[k], c, id)
    ensures var r := DgnGet(StateAt(es, i, www).dgn, es[i].Who());
            && DgnGet(StateAt(es, j + 1, www).dgn, es[j].Who()) == r
            && Find(StateAt(es, j + 1, www).msgs, (c, FAKE)) == Some(r)
  {
    SentIsKept(es, i, j, www, fd, id, c);
    OneStep(es, j, www);
    ReceiveTakes(StateAt(es, j, www), es[j], fd', id, www, c);
  }

  lemma OneStep(es: seq<Event>, i: nat, www: string)
    requires i < |es|
    ensures StateAt(es, i + 1, www) == Step(StateAt(es, i, www), es[i], www)
  {
  }

  /** What was sent is in its slot until something disturbs it. */
  lemma SentIsKept(es: seq<Event>, i: nat, j: nat, www: string, fd: int, id: int, c: Conn)
    requires i < j <= |es| && es[i].what == MessageSend(fd, id)
    requires Find(StateAt(es, i, www).fds, (es[i].pid, fd)) == Some(c)
    requires forall k | i < k < j :: !Disturbs(StateAt(es, k, www), es[k], c, id)
    ensures Find(StateAt(es, j, www).msgs, (c, id)) == Some(DgnGet(StateAt(es, i, www).dgn, es[i].Who()))
  {
    var before := StateAt(es, i, www);
    OneStep(es, i, www);
    SendSets(before, es[i], fd, id, www, c);
    NoInventedRequests(es, i, www);
    BoundIsKnown(before, (es[i].pid, fd), c);
    StepCounts(before, es[i], www);
    SlotKeptOver(es, i + 1, j, www, c, id);
  }

  lemma BoundIsKnown(ctx: Ctx, k: (int, int), c: Conn)
    requires Sane(ctx) && Find(ctx.fds, k) == Some(c)
    ensures Known(c, ctx.gensym)
  {
    var s := Stack(ctx.fds, k);
    assert Known(s[|s| - 1], ctx.gensym);
  }

  // ------------------------------------------------------------------ request heads

  lemma EndsInPort(front: string, www: string)
    ensures Distinguished(HostPort(front + www), www)
  {
    assert (front + www)[|front + www| - |www|..] == www;
  }

  lemma OtherEnds(c: Conn, www: string)
    requires Distinguished(c, www)
    ensures c.HostPort? && c.rdv == c.rdv[..|c.rdv| - |www|] + www
  {
  }

  /**
    A message received on a connection whose rendezvous ends in the web server's port makes a
    request: the next number, which the thread works for from then on, and so does the connection.
    Nothing else changes.
   */
  lemma HeadMakesRequest(x: Ctx, e: Event, fd: int, id: int, front: string, www: string)
    requires e.what == MessageRecv(fd, id) && Find(x.fds, (e.pid, fd)) == Some(HostPort(front + www))
    ensures var y := Step(x, e, www);
            && y.genrid == x.genrid + 1 && y.gensym == x.gensym && y.fds == x.fds
            && (forall m :: DgnGet(y.dgn, m) == if m == e.Who() then x.genrid + 1 else DgnGet(x.dgn, m))
            && (forall k :: Find(y.msgs, k) == if k == (HostPort(front + www), FAKE) then Some(x.genrid + 1) else Find(x.msgs, k))
  {
    EndsInPort(front, www);
    var rid := x.genrid + 1;
    forall m ensures DgnGet(DgnSet(x.dgn, e.Who(), rid), m) == if m == e.Who() then rid else DgnGet(x.dgn, m) {
      DgnGetSet(x.dgn, e.Who(), rid, m);
    }
    HandedNumber(x, e, fd, id, www);
  }

  lemma HandedNumber(x: Ctx, e: Event, fd: int, id: int, www: string)
    requires e.what == MessageRecv(fd, id) && Distinguished(ConnOf(x, e.pid, fd), www)
    ensures Step(x, e, www) == SetMsg(x.(dgn := DgnSet(x.dgn, e.Who(), x.genrid + 1), genrid := x.genrid + 1),
                                      e.pid, fd, FAKE, x.genrid + 1)
  {
  }

  /** The event is a message received on a descriptor of a rendezvous that ends in the web server's port. */
  ghost predicate IsHead(x: Ctx, e: Event, www: string) {
    && e.what.MessageRecv?
    && exists front: string :: Find(x.fds, (e.pid, e.what.mfd)) == Some(HostPort(front + www))
  }

  /** No other event makes a request. */
  lemma OnlyHeadsMakeRequests(x: Ctx, e: Event, www: string)
    ensures Step(x, e, www).genrid == x.genrid + if IsHead(x, e, www) then 1 else 0
  {
    if e.what.MessageRecv? {
      ReceiveNumbers(x, e, e.what.mfd, e.what.msgid, www);
    } else {
      OtherNumbers(x, e, www);
    }
  }

  lemma ReceiveNumbers(x: Ctx, e: Event, fd: int, id: int, www: string)
    requires e.what == MessageRecv(fd, id)
    ensures Step(x, e, www).genrid == x.genrid + if IsHead(x, e, www) then 1 else 0
  {
    HeadIffDistinguished(x, e, fd, id, www);
  }

  lemma HeadIffDistinguished(x: Ctx, e: Event, fd: int, id: int, www: string)
    requires e.what == MessageRecv(fd, id)
    ensures IsHead(x, e, www) <==> Distinguished(ConnOf(x, e.pid, fd), www)
  {
    var c := ConnOf(x, e.pid, fd);
    if Distinguished(c, www) {
      OtherEnds(c, www);
      assert Find(x.fds, (e.pid, fd)) == Some(HostPort(c.rdv[..|c.rdv| - |www|] + www));
    }
    if IsHead(x, e, www) {
      var front: string :| Find(x.fds, (e.pid, fd)) == Some(HostPort(front + www));
      EndsInPort(front, www);
    }
  }

  lemma OtherNumbers(x: Ctx, e: Event, www: string)
    requires !e.what.MessageRecv?
    ensures Step(x, e, www).genrid == x.genrid
  {
    match e.what
    case Open(fd) => NewConnCounts(x, e, fd, www);
    case Socket(fd) => NewConnCounts(x, e, fd, www);
    case Pipe(fi, fo) => NewPipeCounts(x, e, fi, fo, www);
    case _ =>
  }

  /** Where a browser's connection comes from, and where it goes to, up to the port. */
  const FRONT := "10.0.0.7:41234->10.0.0.1"

  /** A front end accepts a request, and talks to a back end over a second connection. */
  function FrontToBack(www: string): seq<Event> {
    [Event(1, 1, Accept(3, FRONT + www)), Event(1, 1, MessageRecv(3, 0)), Event(1, 1, Accept(4, "")),
     Event(2, 2, Accept(3, "")), Event(1, 1, MessageSend(4, 7)), Event(2, 2, MessageRecv(3, 7))]
  }

  lemma Accepts(x: Ctx, e: Event, www: string, fd: int, rdv: string)
    requires e.what == Accept(fd, rdv)
    ensures var after := Step(x, e, www);
            after.dgn == x.dgn && after.genrid == x.genrid && after.msgs == x.msgs
            && forall k :: Find(after.fds, k) == if k == (e.pid, fd) then Some(HostPort(rdv)) else Find(x.fds, k)
  {
  }

  lemma FrontReady(www: string)
    requires www != []
    ensures var x := StateAt(FrontToBack(www), 4, www);
            && Find(x.fds, (1, 4)) == Some(HostPort("")) && Find(x.fds, (2, 3)) == Some(HostPort(""))
            && (forall m :: DgnGet(x.dgn, m) == if m == Mid(1, 1) then 1 else NONE)
            && Stack(x.msgs, (HostPort(""), 7)) == []
  {
    var es := FrontToBack(www);
    Accepts(EmptyCtx, es[0], www, 3, FRONT + www);
    assert StateAt(es, 1, www) == Step(StateAt(es, 0, www), es[0], www);
    HeadMakesRequest(StateAt(es, 1, www), es[1], 3, 0, FRONT, www);
    assert Find(StateAt(es, 2, www).msgs, (HostPort(""), 7)) == None;
    Accepts(StateAt(es, 2, www), es[2], www, 4, "");
    Accepts(StateAt(es, 3, www), es[3], www, 3, "");
  }

  /** The back end works for the request the front end accepted. */
  lemma RequestReachesBackEnd(www: string)
    requires www != []
    ensures var es := FrontToBack(www); DgnGet(StateAt(es, 6, www).dgn, Mid(2, 2)) == 1
  {
    var es := FrontToBack(www);
    FrontReady(www);
    var x := StateAt(es, 4, www);
    assert StateAt(es, 5, www) == Step(x, es[4], www);
    assert Step(x, es[4], www).fds == x.fds;
    CausalTransfer(es, 4, 5, www, 4, 3, 7, HostPort(""));
  }

  /** A read takes over the request of the connection's current message, if it has one. */
  lemma ReadTakes(ctx: Ctx, e: Event, fd: int, www: string, c: Conn)
    requires e.what == Read(fd) && Find(ctx.fds, (e.pid, fd)) == Some(c)
    ensures DgnGet(Step(ctx, e, www).dgn, e.Who()) ==
              match Find(ctx.msgs, (c, FAKE))
              case Some(r) => if r != NONE then r else DgnGet(ctx.dgn, e.Who())
              case None => DgnGet(ctx.dgn, e.Who())
  {
    DgnGetSet(ctx.dgn, e.Who(), RidOf(ctx, e.pid, fd, FAKE), e.Who());
  }

  // ------------------------------------------------------------------ fork

  /**
    A child starts with its parent's request and finds every descriptor its parent had open where
    its parent finds it; nothing else changes.
   */
  lemma ForkInherits(ctx: Ctx, e: Event, www: string, ppid: int, ptid: int)
    requires e.what == Fork(ppid, ptid)
    ensures var after := Step(ctx, e, www);
            && DgnGet(after.dgn, e.Who()) == DgnGet(ctx.dgn, Mid(ppid, ptid))
            && (forall m | m != e.Who() :: DgnGet(after.dgn, m) == DgnGet(ctx.dgn, m))
            && (forall fd :: Find(after.fds, (e.pid, fd)) ==
                  if Find(ctx.fds, (ppid, fd)).Some? then Find(ctx.fds, (ppid, fd)) else Find(ctx.fds, (e.pid, fd)))
            && (forall k: (int, int) | k.0 != e.pid :: Find(after.fds, k) == Find(ctx.fds, k))
            && after.msgs == ctx.msgs
  {
    var rid := DgnGet(ctx.dgn, Mid(ppid, ptid));
    forall m ensures DgnGet(DgnSet(ctx.dgn, e.Who(), rid), m) == if m == e.Who() then rid else DgnGet(ctx.dgn, m) {
      DgnGetSet(ctx.dgn, e.Who(), rid, m);
    }
  }

  // ------------------------------------------------------------------ renaming connections

  /** Renaming moves exactly the descriptors and messages of the old connection; the rest stays. */
  lemma RenameMoves(ctx: Ctx, from: Conn, to: Conn)
    ensures var after := ReplaceAllConn(ctx, from, to);
            && (forall k :: Find(after.fds, k) == if Find(ctx.fds, k) == Some(from) then Some(to) else Find(ctx.fds, k))
            && (from != to ==> forall id :: Stack(after.msgs, (from, id)) == [])
            && (forall k: (Conn, int) | k.0 != from && k.0 != to :: Stack(after.msgs, k) == Stack(ctx.msgs, k))
            && after.dgn == ctx.dgn
  {
  }

  /** Renaming a connection to itself changes nothing: PP_INIT has no effect on the tables. */
  lemma RenameToSelf(ctx: Ctx, c: Conn)
    ensures Same(ReplaceAllConn(ctx, c, c).fds, ctx.fds) && Same(ReplaceAllConn(ctx, c, c).msgs, ctx.msgs)
  {
    forall k ensures Stack(RenameFds(ctx.fds, c, c), k) == Stack(ctx.fds, k) {
      var s := Stack(ctx.fds, k);
      if Find(ctx.fds, k) == Some(c) { assert Overwrite(s, c) == s; }
    }
  }

  /** A stack of bindings arrives upside down, on top of what was there. */
  lemma RenamedMessage(msgs: Table<(Conn, int), int>, from: Conn, to: Conn, id: int)
    requires from != to && Stack(msgs, (from, id)) != []
    ensures Find(RenameMsgs(msgs, from, to), (to, id)) == Some(Stack(msgs, (from, id))[0])
  {
    var s := Stack(msgs, (from, id));
    assert Stack(RenameMsgs(msgs, from, to), (to, id)) == Stack(msgs, (to, id)) + Reverse(s);
    assert Reverse(s)[|s| - 1] == s[0];
  }

  /**
    Through a descriptor of the renamed connection a message bound there resolves to the same
    request as before if and only if its oldest and its newest binding agree; so it always does when
    no binding hides another.
   */
  lemma RenameKeepsMessages(ctx: Ctx, from: Conn, to: Conn, pid: int, fd: int, id: int)
    requires from != to && Find(ctx.fds, (pid, fd)) == Some(from) && Stack(ctx.msgs, (from, id)) != []
    ensures var s := Stack(ctx.msgs, (from, id));
            RidOf(ReplaceAllConn(ctx, from, to), pid, fd, id) == RidOf(ctx, pid, fd, id) <==> s[0] == s[|s| - 1]
  {
    assert Find(RenameFds(ctx.fds, from, to), (pid, fd)) == Some(to);
    RenamedMessage(ctx.msgs, from, to, id);
  }

  /** A message not bound on the old connection resolves to whatever the new one already had for it. */
  lemma RenameUncovers(ctx: Ctx, from: Conn, to: Conn, pid: int, fd: int, id: int)
    requires from != to && Find(ctx.fds, (pid, fd)) == Some(from) && Stack(ctx.msgs, (from, id)) == []
    ensures Find(ReplaceAllConn(ctx, from, to).msgs, (to, id)) == Find(ctx.msgs, (to, id))
    ensures RidOf(ReplaceAllConn(ctx, from, to), pid, fd, id)
         == match Find(ctx.msgs, (to, id)) case Some(r) => r case None => NONE
  {
    var after := ReplaceAllConn(ctx, from, to);
    assert Find(after.fds, (pid, fd)) == Some(to);
    assert Stack(after.msgs, (to, id)) == Stack(ctx.msgs, (to, id)) + Reverse(Stack(ctx.msgs, (from, id)));
  }
}
