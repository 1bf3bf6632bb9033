/** What each event does, in terms of what the lookups find before and after it (join.ml). */
module EventEffects {
  import opened Bytes
  import opened Tables
  import opened Join
  import opened JoinTheorems
  import opened Transfer

  // ------------------------------------------------------------------ lookups

  /** OCaml's hash tables: `add` hides a binding, `remove` uncovers it, `replace` does neither. */
  lemma HashtblLaws<K, V>(t: Table<K, V>, k: K, v: V, j: K)
    ensures Find(Add(t, k, v), j) == if j == k then Some(v) else Find(t, j)
    ensures Find(Remove(Add(t, k, v), k), j) == Find(t, j)
    ensures Find(Replace(t, k, v), j) == if j == k then Some(v) else Find(t, j)
    ensures Find(t, k).Some? ==> Find(Remove(Replace(t, k, v), k), j) == Find(Remove(t, k), j)
    ensures Find(t, k).None? ==> Find(Remove(t, k), j) == Find(t, j)
  {
    var s := Stack(t, k);
    assert (s + [v])[..|s|] == s;
    if s != [] { assert (s[..|s| - 1] + [v])[..|s| - 1] == s[..|s| - 1]; }
  }

  lemma Replaced<K, V>(t: Table<K, V>, k: K, v: V, j: K)
    ensures Find(Replace(t, k, v), j) == if j == k then Some(v) else Find(t, j)
  {
  }

  /** The first entry of the thread that has a request. */
  ghost predicate FirstWith(dgn: seq<Dgn>, p: Mid -> bool, rid: int) {
    exists i | 0 <= i < |dgn| ::
      p(dgn[i].mid) && dgn[i].rid == rid && rid != NONE && forall j | 0 <= j < i :: p(dgn[j].mid) ==> dgn[j].rid == NONE
  }

  ghost predicate NoneWith(dgn: seq<Dgn>, p: Mid -> bool) {
    forall i | 0 <= i < |dgn| :: p(dgn[i].mid) ==> dgn[i].rid == NONE
  }

  /** A thread's request is that of its first entry that has one. */
  lemma {:induction false} RequestIsFirst(dgn: seq<Dgn>, m: Mid)
    ensures if DgnGet(dgn, m) == NONE then NoneWith(dgn, (x: Mid) => x == m) else FirstWith(dgn, (x: Mid) => x == m, DgnGet(dgn, m))
  {
    if dgn != [] && !(dgn[0].mid == m && dgn[0].rid != NONE) {
      var rest := dgn[1..];
      RequestIsFirst(rest, m);
      if DgnGet(rest, m) == NONE {
        forall i | 0 <= i < |dgn| ensures dgn[i].mid == m ==> dgn[i].rid == NONE {
          if i > 0 { assert rest[i - 1] == dgn[i]; }
        }
      } else {
        var i :| 0 <= i < |rest| && rest[i].mid == m && rest[i].rid == DgnGet(rest, m)
                 && forall j | 0 <= j < i :: rest[j].mid == m ==> rest[j].rid == NONE;
        assert dgn[i + 1] == rest[i];
        forall j | 0 <= j < i + 1 ensures dgn[j].mid == m ==> dgn[j].rid == NONE {
          if j > 0 { assert rest[j - 1] == dgn[j]; }
        }
      }
    }
  }

  // ------------------------------------------------------------------ threads

  /** Exec: the thread that is left has the process's first request, the others of the process none. */
  lemma ExecKeepsTheProcess(x: Ctx, e: Event, oldtid: int, www: string, m: Mid)
    requires e.what == Exec(oldtid)
    ensures var y := Step(x, e, www);
            && y.fds == x.fds && y.msgs == x.msgs && y.gensym == x.gensym && y.genrid == x.genrid
            && (m.pid != e.pid ==> DgnGet(y.dgn, m) == DgnGet(x.dgn, m))
            && (m.pid == e.pid && m.tid != e.tid ==> DgnGet(y.dgn, m) == NONE)
            && (m == Mid(e.pid, e.tid) ==>
                  if DgnGet(y.dgn, m) == NONE then NoneWith(x.dgn, (t: Mid) => t.pid == e.pid)
                  else FirstWith(x.dgn, (t: Mid) => t.pid == e.pid, DgnGet(y.dgn, m)))
  {
    var who := e.Who();
    if m.pid != e.pid {
      CollapseOthers(x.dgn, who, m);
    } else {
      var d := Collapse(x.dgn, who);
      RequestIsFirst(d, m);
      assert forall i | 0 <= i < |d| :: d[i].rid == x.dgn[i].rid && (d[i].mid == who <==> x.dgn[i].mid.pid == e.pid);
    }
  }

  lemma {:induction false} CollapseOthers(dgn: seq<Dgn>, who: Mid, m: Mid)
    requires m.pid != who.pid
    ensures DgnGet(Collapse(dgn, who), m) == DgnGet(dgn, m)
  {
    if dgn != [] {
      assert Collapse(dgn, who)[1..] == Collapse(dgn[1..], who);
      CollapseOthers(dgn[1..], who, m);
    }
  }

  /** The end of a wait: the thread takes over the connection's request, or has none. */
  lemma PollTakes(x: Ctx, e: Event, fd: int, www: string, m: Mid)
    requires e.what == Poll(false, fd)
    ensures var y := Step(x, e, www);
            && y.fds == x.fds && y.msgs == x.msgs && y.genrid == x.genrid
            && (m != Mid(e.pid, e.tid) ==> DgnGet(y.dgn, m) == DgnGet(x.dgn, m))
            && (forall c | Find(x.fds, (e.pid, fd)) == Some(c) ::
                  DgnGet(y.dgn, Mid(e.pid, e.tid)) == match Find(x.msgs, (c, -9)) case Some(r) => r case None => -1)
  {
    DgnGetSet(x.dgn, e.Who(), RidOf(x, e.pid, fd, FAKE), m);
    DgnGetSet(x.dgn, e.Who(), RidOf(x, e.pid, fd, FAKE), e.Who());
  }

  /** A thread that ends has no request; nothing else changes. */
  lemma EndClears(x: Ctx, e: Event, www: string, m: Mid)
    requires e.what in {Exit, Abort, Shutdown}
    ensures var y := Step(x, e, www);
            && y.fds == x.fds && y.msgs == x.msgs && y.gensym == x.gensym && y.genrid == x.genrid
            && DgnGet(y.dgn, m) == if m == Mid(e.pid, e.tid) then -1 else DgnGet(x.dgn, m)
  {
    DgnGetSet(x.dgn, e.Who(), NONE, m);
  }

  /** The events that change nothing. */
  lemma NothingHappens(x: Ctx, e: Event, www: string)
    requires e.what.Start? || e.what.PollBegin? || e.what.Close? || e.what.WriteBegin? || e.what.Write? || e.what.ReadBegin?
             || e.what.SkipEvent? || e.what.TodoEvent? || (e.what.Poll? && e.what.timeout)
    ensures Step(x, e, www) == x
  {
  }

  // ------------------------------------------------------------------ descriptors

  /** Open and socket: a new connection, working for the caller's request. */
  lemma OpenMakes(x: Ctx, e: Event, fd: int, www: string, k: (int, int), j: (Conn, int))
    requires e.what == Open(fd) || e.what == Socket(fd)
    ensures var y := Step(x, e, www);
            && y.dgn == x.dgn && y.gensym == x.gensym + 1 && y.genrid == x.genrid
            && Find(y.fds, k) == (if k == (e.pid, fd) then Some(GenSym(x.gensym + 1)) else Find(x.fds, k))
            && Find(y.msgs, j) == (if j == (GenSym(x.gensym + 1), -9) then Some(DgnGet(x.dgn, e.Who())) else Find(x.msgs, j))
  {
    var named := SetFd(Bump(x), e.pid, fd, Fresh(x));
    assert Step(x, e, www) == SetMsg(named, e.pid, fd, FAKE, DgnGet(x.dgn, e.Who()));
    assert Find(named.fds, (e.pid, fd)) == Some(Fresh(x));
  }

  /** A pipe: a new connection for each end, both working for the caller's request. */
  lemma PipeMakes(x: Ctx, e: Event, fi: int, fo: int, www: string, k: (int, int), j: (Conn, int))
    requires e.what == Pipe(fi, fo) && fi != fo
    ensures var y := Step(x, e, www);
            && y.dgn == x.dgn && y.gensym == x.gensym + 2 && y.genrid == x.genrid
            && Find(y.fds, k) == (if k == (e.pid, fo) then Some(GenSym(x.gensym + 1))
                                  else if k == (e.pid, fi) then Some(GenSym(x.gensym + 2)) else Find(x.fds, k))
            && Find(y.msgs, j) == (if j == (GenSym(x.gensym + 1), -9) || j == (GenSym(x.gensym + 2), -9)
                                   then Some(DgnGet(x.dgn, e.Who())) else Find(x.msgs, j))
  {
    var rid, a, b := DgnGet(x.dgn, e.Who()), GenSym(x.gensym + 1), GenSym(x.gensym + 2);
    PipeTables(x, e, fi, fo, www);
    var fds := Replace(x.fds, (e.pid, fi), b);
    Replaced(x.fds, (e.pid, fi), b, k);
    Replaced(fds, (e.pid, fo), a, k);
    var msgs := Replace(x.msgs, (b, FAKE), rid);
    Replaced(x.msgs, (b, FAKE), rid, j);
    Replaced(msgs, (a, FAKE), rid, j);
  }

  lemma PipeTables(x: Ctx, e: Event, fi: int, fo: int, www: string)
    requires e.what == Pipe(fi, fo) && fi != fo
    ensures var rid, a, b := DgnGet(x.dgn, e.Who()), GenSym(x.gensym + 1), GenSym(x.gensym + 2);
            Step(x, e, www) == x.(fds := Replace(Replace(x.fds, (e.pid, fi), b), (e.pid, fo), a),
                                  msgs := Replace(Replace(x.msgs, (b, FAKE), rid), (a, FAKE), rid), gensym := x.gensym + 2)
  {
    var rid := DgnGet(x.dgn, e.Who());
    var one := SetFd(Bump(Bump(x)), e.pid, fi, Fresh(Bump(x)));
    var named := SetFd(one, e.pid, fo, Fresh(x));
    assert Find(one.fds, (e.pid, fi)) == Some(Fresh(Bump(x)));
    assert Find(named.fds, (e.pid, fo)) == Some(Fresh(x)) && Find(named.fds, (e.pid, fi)) == Some(Fresh(Bump(x)));
    assert SetMsg(named, e.pid, fi, FAKE, rid) == named.(msgs := Replace(x.msgs, (Fresh(Bump(x)), FAKE), rid));
  }

  /** Dup: the new descriptor is on the old one's connection; a connection is made if that has none. */
  lemma DupShares(x: Ctx, e: Event, oldfd: int, newfd: int, www: string, k: (int, int))
    requires e.what == Dup(oldfd, newfd)
    ensures var y := Step(x, e, www);
            && y.dgn == x.dgn && y.msgs == x.msgs && y.genrid == x.genrid
            && Find(y.fds, k) ==
                 if k != (e.pid, newfd) then Find(x.fds, k)
                 else if Find(x.fds, (e.pid, oldfd)).Some? then Find(x.fds, (e.pid, oldfd)) else Some(GenSym(x.gensym + 1))
  {
    DupStep(x, e, oldfd, newfd, www);
    Replaced(x.fds, (e.pid, newfd), ConnOf(x, e.pid, oldfd), k);
  }

  lemma DupStep(x: Ctx, e: Event, oldfd: int, newfd: int, www: string)
    requires e.what == Dup(oldfd, newfd)
    ensures Step(x, e, www) == AfterConnOf(x, e.pid, oldfd).(fds := Replace(x.fds, (e.pid, newfd), ConnOf(x, e.pid, oldfd)))
  {
  }

  // ------------------------------------------------------------------ messages

  /** A send binds the thread's request to the message's slot, and touches nothing else. */
  lemma SendBinds(x: Ctx, e: Event, fd: int, id: int, www: string, c: Conn, j: (Conn, int))
    requires e.what == MessageSend(fd, id) && Find(x.fds, (e.pid, fd)) == Some(c)
    ensures var y := Step(x, e, www);
            && y.dgn == x.dgn && y.fds == x.fds && y.gensym == x.gensym && y.genrid == x.genrid
            && Find(y.msgs, j) == if j == (c, id) then Some(DgnGet(x.dgn, e.Who())) else Find(x.msgs, j)
  {
    SendStep(x, e, fd, id, www, c);
    Replaced(x.msgs, (c, id), DgnGet(x.dgn, e.Who()), j);
  }

  lemma SendStep(x: Ctx, e: Event, fd: int, id: int, www: string, c: Conn)
    requires e.what == MessageSend(fd, id) && Find(x.fds, (e.pid, fd)) == Some(c)
    ensures Step(x, e, www) == x.(msgs := Replace(x.msgs, (c, id), DgnGet(x.dgn, e.Who())))
  {
  }

  /** A receive that is no request head: thread and connection take over the message's request, or none. */
  lemma ReceiveBinds(x: Ctx, e: Event, fd: int, id: int, www: string, c: Conn, m: Mid, j: (Conn, int))
    requires e.what == MessageRecv(fd, id) && Find(x.fds, (e.pid, fd)) == Some(c) && !IsHead(x, e, www)
    ensures var y := Step(x, e, www);
            var r := match Find(x.msgs, (c, id)) case Some(r) => r case None => -1;
            && y.fds == x.fds && y.gensym == x.gensym && y.genrid == x.genrid
            && DgnGet(y.dgn, m) == (if m == e.Who() then r else DgnGet(x.dgn, m))
            && Find(y.msgs, j) == (if j == (c, -9) then Some(r) else Find(x.msgs, j))
  {
    HeadIffDistinguished(x, e, fd, id, www);
    var r := RidOf(x, e.pid, fd, id);
    DgnGetSet(x.dgn, e.Who(), r, m);
    Replaced(x.msgs, (c, FAKE), r, j);
    assert Step(x, e, www) == SetMsg(x.(dgn := DgnSet(x.dgn, e.Who(), r)), e.pid, fd, FAKE, r);
  }

  /** A message received on an unknown descriptor: the thread has no request, and nothing known changes. */
  lemma UnknownReceive(x: Ctx, e: Event, fd: int, id: int, www: string, c: Conn, m: Mid, j: int)
    requires Sane(x) && e.what == MessageRecv(fd, id) && Find(x.fds, (e.pid, fd)).None? && Known(c, x.gensym)
    ensures var y := Step(x, e, www);
            && y.fds == x.fds && y.gensym == x.gensym + 3 && y.genrid == x.genrid
            && DgnGet(y.dgn, m) == (if m == e.Who() then -1 else DgnGet(x.dgn, m))
            && Stack(y.msgs, (c, j)) == Stack(x.msgs, (c, j))
  {
    assert Stack(x.msgs, (GenSym(x.gensym + 2), id)) == [];
    assert RidOf(Bump(x), e.pid, fd, id) == NONE;
    DgnGetSet(x.dgn, e.Who(), NONE, m);
    var y := Step(x, e, www);
    assert y.dgn == DgnSet(x.dgn, e.Who(), NONE) && y.msgs == Replace(x.msgs, (GenSym(x.gensym + 3), FAKE), NONE);
  }

  // ------------------------------------------------------------------ renamed connections

  /**
    Connect: every descriptor on the socket's connection is on the peers' common name from then on, in
    every process, and so is every message: the oldest one bound there is found.  Nothing else changes.
   */
  lemma ConnectMoves(x: Ctx, e: Event, fd: int, rdv: string, www: string, from: Conn, k: (int, int), c: Conn, id: int)
    requires e.what == Connect(fd, rdv) && Find(x.fds, (e.pid, fd)) == Some(from) && from != HostPort(rdv)
    ensures var y := Step(x, e, www);
            && y.dgn == x.dgn && y.gensym == x.gensym && y.genrid == x.genrid
            && Find(y.fds, k) == (if Find(x.fds, k) == Some(from) then Some(HostPort(rdv)) else Find(x.fds, k))
            && Find(y.msgs, (c, id)) ==
                 if c == from then None
                 else if c == HostPort(rdv) && Stack(x.msgs, (from, id)) != [] then Some(Stack(x.msgs, (from, id))[0])
                 else Find(x.msgs, (c, id))
  {
    var to := HostPort(rdv);
    ConnectStep(x, e, fd, rdv, www);
    RenameMoves(x, from, to);
    if Stack(x.msgs, (from, id)) != [] {
      RenamedMessage(x.msgs, from, to, id);
    } else {
      RenameUncovers(x, from, to, e.pid, fd, id);
    }
  }

  /** PP_INIT changes nothing that is found afterwards. */
  lemma InitKeeps(x: Ctx, e: Event, fd: int, www: string, k: (int, int), j: (Conn, int))
    requires e.what == ProtocolInit(fd)
    ensures var y := Step(x, e, www);
            && y.dgn == x.dgn && y.genrid == x.genrid && Find(y.fds, k) == Find(x.fds, k) && Find(y.msgs, j) == Find(x.msgs, j)
            && y.gensym == x.gensym + if Find(x.fds, (e.pid, fd)).None? then 1 else 0
  {
    InitStep(x, e, fd, www);
    RenameToSelf(AfterConnOf(x, e.pid, fd), ConnOf(x, e.pid, fd));
  }
}
