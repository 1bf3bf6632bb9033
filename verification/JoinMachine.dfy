/** The join as it runs: hash tables and counters updated in place, event by event (join.ml). */
module JoinMachine {
  import opened Bytes
  import opened Tables
  import opened Join
  import opened Equivalence

  method Pick<T>(s: set<T>) returns (x: T)
    requires s != {}
    ensures x in s
  {
    x :| x in s;
  }

  /** `ht_keylist`: every key, once for each of its bindings, in no particular order. */
  method KeyList<K(!new,==), V>(t: Table<K, V>) returns (keys: seq<K>)
    ensures forall k :: multiset(keys)[k] == |Stack(t, k)|
  {
    keys := [];
    var todo := t.Keys;
    while todo != {}
      invariant todo <= t.Keys
      invariant forall k :: multiset(keys)[k] == if k in todo then 0 else |Stack(t, k)|
      decreases todo
    {
      var k := Pick(todo);
      ghost var before := multiset(keys);
      for i := 0 to |t[k]|
        invariant multiset(keys) == before[k := i]
      {
        keys := keys + [k];
      }
      todo := todo - {k};
    }
  }

  /** `List.filter` */
  function Filter<K(!new)>(keys: seq<K>, p: K -> bool): (r: seq<K>)
    ensures forall k :: multiset(r)[k] == if p(k) then multiset(keys)[k] else 0
  {
    if keys == [] then []
    else
      assert keys == [keys[0]] + keys[1..];
      (if p(keys[0]) then [keys[0]] else []) + Filter(keys[1..], p)
  }

  class JoinState {
    const www: string
    var dgn: seq<Dgn>
    var fds: Table<(int, int), Conn>
    var msgs: Table<(Conn, int), int>
    var gensym: nat
    var genrid: nat

    function Value(): Ctx
      reads this
    {
      Ctx(dgn, fds, msgs, gensym, genrid)
    }

    constructor (www: string)
      ensures Value() == EmptyCtx && this.www == www
    {
      this.www := www;
      dgn, fds, msgs, gensym, genrid := [], map[], map[], 0, 0;
    }

    method NewSimpleStream() returns (c: Conn)
      modifies this`gensym
      ensures c == Fresh(old(Value())) && Value() == Bump(old(Value()))
    {
      gensym := gensym + 1;
      c := GenSym(gensym);
    }

    method ConnOfFd(pid: int, fd: int) returns (c: Conn)
      modifies this`gensym
      ensures c == ConnOf(old(Value()), pid, fd) && Value() == AfterConnOf(old(Value()), pid, fd)
    {
      match Find(fds, (pid, fd)) {
        case Some(found) => c := found;
        case None => c := NewSimpleStream();
      }
    }

    method SetFdConn(pid: int, fd: int, conn: Conn)
      modifies this`fds
      ensures Value() == SetFd(old(Value()), pid, fd, conn)
    {
      fds := Replace(fds, (pid, fd), conn);
    }

    method RidOfMsg(pid: int, fd: int, msgid: int) returns (rid: int)
      modifies this`gensym
      ensures rid == RidOf(old(Value()), pid, fd, msgid) && Value() == AfterConnOf(old(Value()), pid, fd)
    {
      var conn := ConnOfFd(pid, fd);
      match Find(msgs, (conn, msgid)) {
        case Some(found) => rid := found;
        case None => rid := NONE;
      }
    }

    method SetMessage(pid: int, fd: int, msgid: int, rid: int)
      modifies this`gensym, this`msgs
      ensures Value() == SetMsg(old(Value()), pid, fd, msgid, rid)
    {
      var conn := ConnOfFd(pid, fd);
      msgs := Replace(msgs, (conn, msgid), rid);
    }

    /** `handle_fork`: add every binding the parent had to the child. */
    method HandleForking(parent: Mid, child: Mid)
      modifies this`fds, this`dgn
      ensures Equivalent(Value(), HandleFork(old(Value()), parent, child))
    {
      var own := fds;
      var todo := set k | k in own && k.0 == parent.pid;
      while todo != {}
        invariant todo <= set k | k in own && k.0 == parent.pid
        invariant dgn == old(dgn)
        invariant forall k: (int, int) :: Stack(fds, k) == Stack(own, k)
                    + if k.0 == child.pid && (parent.pid, k.1) in own && (parent.pid, k.1) !in todo
                      then Stack(own, (parent.pid, k.1)) else []
        decreases todo
      {
        var k: (int, int) := Pick(todo);
        AddAll((child.pid, k.1), own[k]);
        todo := todo - {k};
      }
      dgn := DgnSet(dgn, child, DgnGet(dgn, parent));
    }

    /** One key's bindings, oldest first. */
    method AddAll(k: (int, int), conns: seq<Conn>)
      modifies this`fds
      ensures forall j :: Stack(fds, j) == Stack(old(fds), j) + if j == k then conns else []
    {
      for i := 0 to |conns|
        invariant forall j :: Stack(fds, j) == Stack(old(fds), j) + if j == k then conns[..i] else []
      {
        fds := Add(fds, k, conns[i]);
        assert conns[..i + 1] == conns[..i] + [conns[i]];
      }
      assert conns[..|conns|] == conns;
    }

    /** `replace_all_conn`, whatever order the tables list their keys in. */
    method ReplaceAll(from: Conn, to: Conn)
      modifies this`fds, this`msgs
      ensures Equivalent(Value(), ReplaceAllConn(old(Value()), from, to))
    {
      RedirectFds(from, to);
      MoveMsgs(from, to);
    }

    method RedirectFds(from: Conn, to: Conn)
      modifies this`fds
      ensures Same(fds, RenameFds(old(fds), from, to))
    {
      ghost var was := fds;
      var pflist := Descriptors(from);
      for i := 0 to |pflist|
        invariant RedirectedSoFar(was, fds, pflist[..i], to)
      {
        assert pflist[..i + 1] == pflist[..i] + [pflist[i]];
        RedirectOne(was, fds, pflist[..i], to, pflist[i]);
        fds := Replace(fds, pflist[i], to);
      }
      assert pflist[..|pflist|] == pflist;
      AllRedirected(was, fds, pflist, from, to);
    }

    /** The descriptors on a connection, as often as each has been bound. */
    method Descriptors(from: Conn) returns (pflist: seq<(int, int)>)
      ensures forall k :: k in pflist <==> Find(fds, k) == Some(from)
    {
      var keys := KeyList(fds);
      var was := fds;
      pflist := Filter(keys, k => Find(was, k) == Some(from));
      forall k ensures k in pflist <==> Find(fds, k) == Some(from) {
        assert k in pflist <==> multiset(pflist)[k] > 0;
        assert multiset(keys)[k] == |Stack(fds, k)|;
      }
    }

    /** The messages bound on a connection, as often as each has been bound. */
    method Messages(from: Conn) returns (cmlist: seq<(Conn, int)>)
      ensures forall k: (Conn, int) :: multiset(cmlist)[k] == if k.0 == from then |Stack(msgs, k)| else 0
    {
      var keys := KeyList(msgs);
      cmlist := Filter(keys, (k: (Conn, int)) => k.0 == from);
    }

    method MoveMsgs(from: Conn, to: Conn)
      modifies this`msgs
      ensures Same(msgs, RenameMsgs(old(msgs), from, to))
    {
      ghost var was := msgs;
      var cmlist := Messages(from);
      for i := 0 to |cmlist|
        invariant MovedSoFar(was, msgs, from, to, multiset(cmlist[..i]))
      {
        var k := cmlist[i];
        NextToMove(was, from, cmlist, i);
        MoveOne(was, msgs, from, to, multiset(cmlist[..i]), k);
        var rid := Find(msgs, k).value;
        msgs := Remove(msgs, k);
        msgs := Add(msgs, (to, k.1), rid);
      }
      assert cmlist[..|cmlist|] == cmlist;
      AllMoved(was, msgs, from, to, multiset(cmlist));
    }

    /** `stream_join` */
    method StreamJoin(e: Event)
      modifies this
      ensures Equivalent(Value(), Step(old(Value()), e, www))
    {
      match e.what {
        case Fork(ppid, ptid) => JoinFork(e, ppid, ptid);
        case Connect(fd, rdv) => JoinConnect(e, fd, rdv);
        case ProtocolInit(fd) => JoinInit(e, fd);
        case Open(fd) => NewConnection(e, fd);
        case Socket(fd) => NewConnection(e, fd);
        case Pipe(fi, fo) => MakePipe(e, fi, fo);
        case MessageRecv(fd, msgid) => ReceiveMessage(e, fd, msgid);
        case _ => JoinSimple(e);
      }
    }

    method JoinFork(e: Event, ppid: int, ptid: int)
      requires e.what == Fork(ppid, ptid)
      modifies this
      ensures Equivalent(Value(), Step(old(Value()), e, www))
    {
      HandleForking(Mid(ppid, ptid), e.Who());
    }

    method JoinConnect(e: Event, fd: int, rdv: string)
      requires e.what == Connect(fd, rdv)
      modifies this
      ensures Equivalent(Value(), Step(old(Value()), e, www))
    {
      var conn := ConnOfFd(e.pid, fd);
      ReplaceAll(conn, HostPort(rdv));
    }

    method JoinInit(e: Event, fd: int)
      requires e.what == ProtocolInit(fd)
      modifies this
      ensures Equivalent(Value(), Step(old(Value()), e, www))
    {
      var conn := ConnOfFd(e.pid, fd);
      ReplaceAll(conn, conn);
    }

    /** Those that make no connection and receive no message. */
    method JoinSimple(e: Event)
      requires !e.what.Fork? && !e.what.Connect? && !e.what.ProtocolInit?
      requires !e.what.Open? && !e.what.Socket? && !e.what.Pipe? && !e.what.MessageRecv?
      modifies this
      ensures Value() == Step(old(Value()), e, www)
    {
      match e.what {
        case Exec(_) => dgn := Collapse(dgn, e.Who());
        case Poll(timeout, fd) =>
          if !timeout {
            var rid := RidOfMsg(e.pid, fd, FAKE);
            dgn := DgnSet(dgn, e.Who(), rid);
          }
        case Dup(oldfd, newfd) =>
          var conn := ConnOfFd(e.pid, oldfd);
          SetFdConn(e.pid, newfd, conn);
        case Accept(fd, rdv) => SetFdConn(e.pid, fd, HostPort(rdv));
        case Read(fd) =>
          var rid := RidOfMsg(e.pid, fd, FAKE);
          if rid != NONE { dgn := DgnSet(dgn, e.Who(), rid); }
        case MessageSend(fd, msgid) => SetMessage(e.pid, fd, msgid, DgnGet(dgn, e.Who()));
        case Exit => dgn := DgnSet(dgn, e.Who(), NONE);
        case Abort => dgn := DgnSet(dgn, e.Who(), NONE);
        case Shutdown => dgn := DgnSet(dgn, e.Who(), NONE);
        case _ =>
      }
    }

    method NewConnection(e: Event, fd: int)
      requires e.what == Open(fd) || e.what == Socket(fd)
      modifies this
      ensures Value() == Step(old(Value()), e, www)
    {
      var conn := NewSimpleStream();
      SetFdConn(e.pid, fd, conn);
      SetMessage(e.pid, fd, FAKE, DgnGet(dgn, e.Who()));
    }

    method MakePipe(e: Event, fi: int, fo: int)
      requires e.what == Pipe(fi, fo)
      modifies this
      ensures Value() == Step(old(Value()), e, www)
    {
      var out := NewSimpleStream();
      var input := NewSimpleStream();
      SetFdConn(e.pid, fi, input);
      SetFdConn(e.pid, fo, out);
      SetMessage(e.pid, fi, FAKE, DgnGet(dgn, e.Who()));
      SetMessage(e.pid, fo, FAKE, DgnGet(dgn, e.Who()));
    }

    method ReceiveMessage(e: Event, fd: int, msgid: int)
      requires e.what == MessageRecv(fd, msgid)
      modifies this
      ensures Value() == Step(old(Value()), e, www)
    {
      var conn := ConnOfFd(e.pid, fd);
      var rid;
      if Distinguished(conn, www) {
        genrid := genrid + 1;
        rid := genrid;
      } else {
        rid := RidOfMsg(e.pid, fd, msgid);
      }
      dgn := DgnSet(dgn, e.Who(), rid);
      SetMessage(e.pid, fd, FAKE, rid);
    }

    /** `run` */
    method Run(es: seq<Event>)
      requires Value() == EmptyCtx
      modifies this
      ensures Equivalent(Value(), StateAt(es, |es|, www))
    {
      for i := 0 to |es|
        invariant Equivalent(Value(), StateAt(es, i, www))
      {
        StepAgrees(Value(), StateAt(es, i, www), es[i], www);
        StreamJoin(es[i]);
      }
    }
  }

  /** A descriptor's stack when the keys in `done` have been redirected. */
  ghost function Redirected(was: Table<(int, int), Conn>, done: seq<(int, int)>, to: Conn, k: (int, int)): seq<Conn> {
    if k in done then Overwrite(Stack(was, k), to) else Stack(was, k)
  }

  ghost predicate RedirectedSoFar(was: Table<(int, int), Conn>, t: Table<(int, int), Conn>, done: seq<(int, int)>, to: Conn) {
    forall k :: Stack(t, k) == Redirected(was, done, to, k)
  }

  lemma RedirectOne(was: Table<(int, int), Conn>, t: Table<(int, int), Conn>, done: seq<(int, int)>, to: Conn, x: (int, int))
    requires RedirectedSoFar(was, t, done, to)
    ensures RedirectedSoFar(was, Replace(t, x, to), done + [x], to)
  {
    var s := Stack(was, x);
    assert Overwrite(Overwrite(s, to), to) == Overwrite(s, to);
    forall k ensures Stack(Replace(t, x, to), k) == Redirected(was, done + [x], to, k) {
      assert Stack(t, k) == Redirected(was, done, to, k);
    }
  }

  lemma AllRedirected(was: Table<(int, int), Conn>, t: Table<(int, int), Conn>, pflist: seq<(int, int)>, from: Conn, to: Conn)
    requires RedirectedSoFar(was, t, pflist, to)
    requires forall k :: k in pflist <==> Find(was, k) == Some(from)
    ensures Same(t, RenameFds(was, from, to))
  {
  }

  /** A message's stack when `moved` of the bindings of `from` have been popped and pushed on `to`. */
  ghost function Moved(was: Table<(Conn, int), int>, from: Conn, to: Conn, moved: multiset<(Conn, int)>, k: (Conn, int)): seq<int>
  {
    var s, n := Stack(was, (from, k.1)), moved[(from, k.1)];
    if from == to || n > |s| then Stack(was, k)
    else if k.0 == from then s[..|s| - n]
    else if k.0 == to then Stack(was, k) + Reverse(s)[..n]
    else Stack(was, k)
  }

  ghost predicate MovedSoFar(was: Table<(Conn, int), int>, t: Table<(Conn, int), int>, from: Conn, to: Conn,
                             moved: multiset<(Conn, int)>) {
    forall k :: Stack(t, k) == Moved(was, from, to, moved, k)
  }

  lemma NextToMove(was: Table<(Conn, int), int>, from: Conn, cmlist: seq<(Conn, int)>, i: nat)
    requires forall k: (Conn, int) :: multiset(cmlist)[k] == if k.0 == from then |Stack(was, k)| else 0
    requires i < |cmlist|
    ensures multiset(cmlist[..i + 1]) == multiset(cmlist[..i]) + multiset{cmlist[i]}
    ensures cmlist[i].0 == from && multiset(cmlist[..i])[cmlist[i]] < |Stack(was, cmlist[i])|
  {
    assert cmlist[..i + 1] == cmlist[..i] + [cmlist[i]];
    assert cmlist == cmlist[..i + 1] + cmlist[i + 1..];
    assert cmlist[i] in multiset(cmlist);
  }

  ghost function MoveTop(t: Table<(Conn, int), int>, x: (Conn, int), to: Conn): Table<(Conn, int), int>
    requires Find(t, x).Some?
  {
    Add(Remove(t, x), (to, x.1), Find(t, x).value)
  }

  lemma MoveOne(was: Table<(Conn, int), int>, t: Table<(Conn, int), int>, from: Conn, to: Conn,
                moved: multiset<(Conn, int)>, x: (Conn, int))
    requires MovedSoFar(was, t, from, to, moved)
    requires x.0 == from && moved[x] < |Stack(was, x)|
    ensures Find(t, x).Some?
    ensures MovedSoFar(was, MoveTop(t, x, to), from, to, moved + multiset{x})
  {
    assert x == (from, x.1);
    assert Stack(t, x) == Moved(was, from, to, moved, x);
    forall k ensures Stack(MoveTop(t, x, to), k) == Moved(was, from, to, moved + multiset{x}, k) {
      MoveKey(was, t, from, to, moved, x, k);
    }
  }

  lemma MoveKey(was: Table<(Conn, int), int>, t: Table<(Conn, int), int>, from: Conn, to: Conn,
                moved: multiset<(Conn, int)>, x: (Conn, int), k: (Conn, int))
    requires Stack(t, x) == Moved(was, from, to, moved, x) && Stack(t, k) == Moved(was, from, to, moved, k)
    requires x.0 == from && moved[x] < |Stack(was, x)| && Find(t, x).Some?
    ensures Stack(MoveTop(t, x, to), k) == Moved(was, from, to, moved + multiset{x}, k)
  {
    var s, n := Stack(was, x), moved[x];
    assert x == (from, x.1);
    if from == to {
      assert k == x ==> s[..|s| - 1] + [s[|s| - 1]] == s;
    } else if k == (to, x.1) {
      MoveHere(was, t, from, to, moved, x);
    } else if k == x {
      assert s[..|s| - n][..|s| - n - 1] == s[..|s| - (n + 1)];
    }
  }

  lemma MoveHere(was: Table<(Conn, int), int>, t: Table<(Conn, int), int>, from: Conn, to: Conn,
                 moved: multiset<(Conn, int)>, x: (Conn, int))
    requires from != to && x.0 == from && moved[x] < |Stack(was, x)| && Find(t, x).Some?
    requires Stack(t, x) == Moved(was, from, to, moved, x)
    requires Stack(t, (to, x.1)) == Moved(was, from, to, moved, (to, x.1))
    ensures Stack(MoveTop(t, x, to), (to, x.1)) == Moved(was, from, to, moved + multiset{x}, (to, x.1))
  {
    var s, n := Stack(was, x), moved[x];
    assert x == (from, x.1);
    assert Find(t, x).value == s[|s| - 1 - n] == Reverse(s)[n];
    Assoc(Stack(was, (to, x.1)), Reverse(s)[..n], [Reverse(s)[n]]);
    assert Reverse(s)[..n] + [Reverse(s)[n]] == Reverse(s)[..n + 1];
  }

  lemma AllMoved(was: Table<(Conn, int), int>, t: Table<(Conn, int), int>, from: Conn, to: Conn, moved: multiset<(Conn, int)>)
    requires MovedSoFar(was, t, from, to, moved)
    requires forall k: (Conn, int) :: moved[k] == if k.0 == from then |Stack(was, k)| else 0
    ensures Same(t, RenameMsgs(was, from, to))
  {
    forall k ensures Stack(t, k) == Stack(RenameMsgs(was, from, to), k) {
      var s := Stack(was, (from, k.1));
      assert Stack(t, k) == Moved(was, from, to, moved, k);
      assert Reverse(s)[..|s|] == Reverse(s);
    }
  }
}
