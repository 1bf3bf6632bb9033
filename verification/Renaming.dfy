/**
  Contexts that differ only in the names of generated connections and the numbers of requests, and
  in the order in which the threads of different processes are listed.
 */
module Renaming {
  import opened Bytes
  import opened Tables
  import opened Join

  /** A renaming, and the processes and connections it is about. */
  datatype Scope = Scope(conn: int -> int, req: int -> int, procs: iset<int>, conns: iset<Conn>)

  ghost predicate OneToOne(s: Scope) {
    && (forall m, n | s.conn(m) == s.conn(n) :: m == n)
    && (forall m, n | s.req(m) == s.req(n) :: m == n)
    && s.req(NONE) == NONE
  }

  function Ren(s: Scope, c: Conn): Conn { if c.GenSym? then GenSym(s.conn(c.n)) else c }

  function RenAll(s: Scope, cs: seq<Conn>): (r: seq<Conn>)
    ensures |r| == |cs|
  {
    seq(|cs|, i requires 0 <= i < |cs| => Ren(s, cs[i]))
  }

  function ReqAll(s: Scope, rs: seq<int>): (r: seq<int>)
    ensures |r| == |rs|
  {
    seq(|rs|, i requires 0 <= i < |rs| => s.req(rs[i]))
  }

  function DgnAll(s: Scope, dgn: seq<Dgn>): (d: seq<Dgn>)
    ensures |d| == |dgn|
  {
    seq(|dgn|, i requires 0 <= i < |dgn| => Dgn(dgn[i].mid, s.req(dgn[i].rid)))
  }

  /** The threads of one process, in the order they are listed. */
  function Mine(dgn: seq<Dgn>, p: int): seq<Dgn> {
    if dgn == [] then []
    else (if dgn[0].mid.pid == p then [dgn[0]] else []) + Mine(dgn[1..], p)
  }

  ghost predicate FdsLike(x: Table<(int, int), Conn>, y: Table<(int, int), Conn>, s: Scope) {
    forall k: (int, int) | k.0 in s.procs :: Stack(y, k) == RenAll(s, Stack(x, k))
  }

  ghost predicate MsgsLike(x: Table<(Conn, int), int>, y: Table<(Conn, int), int>, s: Scope) {
    forall k: (Conn, int) | k.0 in s.conns :: Stack(y, (Ren(s, k.0), k.1)) == ReqAll(s, Stack(x, k))
  }

  ghost predicate DgnLike(x: seq<Dgn>, y: seq<Dgn>, s: Scope) {
    forall p | p in s.procs :: Mine(y, p) == DgnAll(s, Mine(x, p))
  }

  /** As far as the scope goes, `y` is `x` renamed. */
  ghost predicate Like(x: Ctx, y: Ctx, s: Scope) {
    OneToOne(s) && FdsLike(x.fds, y.fds, s) && MsgsLike(x.msgs, y.msgs, s) && DgnLike(x.dgn, y.dgn, s)
  }

  /** The next `n` names are renamed to each other. */
  ghost predicate Lined(x: Ctx, y: Ctx, s: Scope, n: int) {
    forall m | x.gensym < m <= x.gensym + n :: s.conn(m) == m + (y.gensym - x.gensym)
  }

  // ------------------------------------------------------------------ threads

  lemma {:induction false} MineGet(dgn: seq<Dgn>, m: Mid)
    ensures DgnGet(Mine(dgn, m.pid), m) == DgnGet(dgn, m)
  {
    if dgn != [] {
      MineGet(dgn[1..], m);
      if dgn[0].mid.pid == m.pid {
        assert ([dgn[0]] + Mine(dgn[1..], m.pid))[1..] == Mine(dgn[1..], m.pid);
      } else {
        assert [] + Mine(dgn[1..], m.pid) == Mine(dgn[1..], m.pid);
      }
    }
  }

  lemma {:induction false} MineHolds(dgn: seq<Dgn>, d: Dgn)
    ensures d in Mine(dgn, d.mid.pid) <==> d in dgn
  {
    if dgn != [] {
      MineHolds(dgn[1..], d);
      assert d in dgn <==> d == dgn[0] || d in dgn[1..];
    }
  }

  lemma {:induction false} MineOnly(dgn: seq<Dgn>, p: int)
    ensures forall d | d in Mine(dgn, p) :: d in dgn && d.mid.pid == p
  {
    if dgn != [] { MineOnly(dgn[1..], p); }
  }

  lemma MineListed(dgn: seq<Dgn>, m: Mid)
    ensures Listed(Mine(dgn, m.pid), m) <==> Listed(dgn, m)
  {
    var mine := Mine(dgn, m.pid);
    if Listed(dgn, m) {
      var i :| 0 <= i < |dgn| && dgn[i].mid == m;
      MineHolds(dgn, dgn[i]);
      var j :| 0 <= j < |mine| && mine[j] == dgn[i];
    }
    if Listed(mine, m) {
      var j :| 0 <= j < |mine| && mine[j].mid == m;
      MineHolds(dgn, mine[j]);
      var i :| 0 <= i < |dgn| && dgn[i] == mine[j];
    }
  }

  lemma {:induction false} MineAppend(dgn: seq<Dgn>, d: Dgn, p: int)
    ensures Mine(dgn + [d], p) == Mine(dgn, p) + if d.mid.pid == p then [d] else []
  {
    var tail := if d.mid.pid == p then [d] else [];
    if dgn == [] {
      assert dgn + [d] == [d] && Mine([d], p) == tail + Mine([], p);
    } else {
      assert (dgn + [d])[1..] == dgn[1..] + [d];
      MineAppend(dgn[1..], d, p);
      Assoc(if dgn[0].mid.pid == p then [dgn[0]] else [], Mine(dgn[1..], p), tail);
    }
  }

  lemma {:induction false} MineDesignate(dgn: seq<Dgn>, m: Mid, rid: int, p: int)
    ensures Mine(Designate(dgn, m, rid), p) == if p == m.pid then Designate(Mine(dgn, p), m, rid) else Mine(dgn, p)
  {
    if dgn != [] {
      MineDesignate(dgn[1..], m, rid, p);
      assert Designate(dgn, m, rid)[1..] == Designate(dgn[1..], m, rid);
      DesignateAppend(if dgn[0].mid.pid == p then [dgn[0]] else [], Mine(dgn[1..], p), m, rid);
    }
  }

  lemma DesignateAppend(a: seq<Dgn>, b: seq<Dgn>, m: Mid, rid: int)
    ensures Designate(a + b, m, rid) == Designate(a, m, rid) + Designate(b, m, rid)
  {
  }

  lemma {:induction false} MineCollapse(dgn: seq<Dgn>, m: Mid, p: int)
    ensures Mine(Collapse(dgn, m), p) == if p == m.pid then Collapse(Mine(dgn, p), m) else Mine(dgn, p)
  {
    if dgn != [] {
      MineCollapse(dgn[1..], m, p);
      assert Collapse(dgn, m)[1..] == Collapse(dgn[1..], m);
      CollapseAppend(if dgn[0].mid.pid == p then [dgn[0]] else [], Mine(dgn[1..], p), m);
    }
  }

  lemma CollapseAppend(a: seq<Dgn>, b: seq<Dgn>, m: Mid)
    ensures Collapse(a + b, m) == Collapse(a, m) + Collapse(b, m)
  {
  }

  /** A thread's request is a matter of its own process. */
  lemma MineSet(dgn: seq<Dgn>, m: Mid, rid: int, p: int)
    ensures Mine(DgnSet(dgn, m, rid), p) == if p == m.pid then DgnSet(Mine(dgn, p), m, rid) else Mine(dgn, p)
  {
    MineListed(dgn, m);
    if Listed(dgn, m) { MineDesignate(dgn, m, rid, p); } else { MineAppend(dgn, Dgn(m, rid), p); }
  }

  lemma {:induction false} GetRenamed(dgn: seq<Dgn>, m: Mid, s: Scope)
    requires OneToOne(s)
    ensures DgnGet(DgnAll(s, dgn), m) == s.req(DgnGet(dgn, m))
  {
    if dgn != [] {
      assert DgnAll(s, dgn)[1..] == DgnAll(s, dgn[1..]);
      GetRenamed(dgn[1..], m, s);
    }
  }

  lemma SetRenamed(dgn: seq<Dgn>, m: Mid, rid: int, s: Scope)
    ensures DgnSet(DgnAll(s, dgn), m, s.req(rid)) == DgnAll(s, DgnSet(dgn, m, rid))
  {
    var renamed := DgnAll(s, dgn);
    if Listed(dgn, m) {
      var i :| 0 <= i < |dgn| && dgn[i].mid == m;
      assert renamed[i].mid == m;
      assert Designate(renamed, m, s.req(rid)) == DgnAll(s, Designate(dgn, m, rid));
    } else {
      assert forall i | 0 <= i < |dgn| :: renamed[i].mid == dgn[i].mid;
      assert renamed + [Dgn(m, s.req(rid))] == DgnAll(s, dgn + [Dgn(m, rid)]);
    }
  }

  lemma GetLike(x: seq<Dgn>, y: seq<Dgn>, s: Scope, m: Mid)
    requires OneToOne(s) && DgnLike(x, y, s) && m.pid in s.procs
    ensures DgnGet(y, m) == s.req(DgnGet(x, m))
  {
    MineGet(x, m);
    MineGet(y, m);
    GetRenamed(Mine(x, m.pid), m, s);
  }

  lemma SetLike(x: seq<Dgn>, y: seq<Dgn>, s: Scope, m: Mid, rid: int)
    requires DgnLike(x, y, s)
    ensures DgnLike(DgnSet(x, m, rid), DgnSet(y, m, s.req(rid)), s)
  {
    forall p | p in s.procs ensures Mine(DgnSet(y, m, s.req(rid)), p) == DgnAll(s, Mine(DgnSet(x, m, rid), p)) {
      MineSet(x, m, rid, p);
      MineSet(y, m, s.req(rid), p);
      SetRenamed(Mine(x, p), m, rid, s);
    }
  }

  lemma CollapseLike(x: seq<Dgn>, y: seq<Dgn>, s: Scope, m: Mid)
    requires DgnLike(x, y, s)
    ensures DgnLike(Collapse(x, m), Collapse(y, m), s)
  {
    forall p | p in s.procs ensures Mine(Collapse(y, m), p) == DgnAll(s, Mine(Collapse(x, m), p)) {
      MineCollapse(x, m, p);
      MineCollapse(y, m, p);
      assert Collapse(DgnAll(s, Mine(x, p)), m) == DgnAll(s, Collapse(Mine(x, p), m));
    }
  }

  // ------------------------------------------------------------------ tables

  lemma ConnOfLike(x: Ctx, y: Ctx, s: Scope, pid: int, fd: int)
    requires Like(x, y, s) && pid in s.procs
    requires Find(x.fds, (pid, fd)).None? ==> Lined(x, y, s, 1)
    ensures ConnOf(y, pid, fd) == Ren(s, ConnOf(x, pid, fd))
    ensures Find(y.fds, (pid, fd)).None? <==> Find(x.fds, (pid, fd)).None?
  {
    assert Stack(y.fds, (pid, fd)) == RenAll(s, Stack(x.fds, (pid, fd)));
  }

  lemma SetFdLike(x: Ctx, y: Ctx, s: Scope, pid: int, fd: int, c: Conn)
    requires Like(x, y, s)
    ensures Like(SetFd(x, pid, fd, c), SetFd(y, pid, fd, Ren(s, c)), s)
  {
    var u, v := SetFd(x, pid, fd, c).fds, SetFd(y, pid, fd, Ren(s, c)).fds;
    forall k: (int, int) | k.0 in s.procs ensures Stack(v, k) == RenAll(s, Stack(u, k)) {
      assert Stack(y.fds, k) == RenAll(s, Stack(x.fds, k));
      assert Overwrite(RenAll(s, Stack(x.fds, k)), Ren(s, c)) == RenAll(s, Overwrite(Stack(x.fds, k), c));
    }
  }

  lemma SetMsgLike(x: Ctx, y: Ctx, s: Scope, pid: int, fd: int, id: int, rid: int)
    requires Like(x, y, s) && ConnOf(x, pid, fd) in s.conns && ConnOf(y, pid, fd) == Ren(s, ConnOf(x, pid, fd))
    ensures Like(SetMsg(x, pid, fd, id, rid), SetMsg(y, pid, fd, id, s.req(rid)), s)
  {
    var u, v := SetMsg(x, pid, fd, id, rid).msgs, SetMsg(y, pid, fd, id, s.req(rid)).msgs;
    forall k: (Conn, int) | k.0 in s.conns ensures Stack(v, (Ren(s, k.0), k.1)) == ReqAll(s, Stack(u, k)) {
      assert Stack(y.msgs, (Ren(s, k.0), k.1)) == ReqAll(s, Stack(x.msgs, k));
      assert Overwrite(ReqAll(s, Stack(x.msgs, k)), s.req(rid)) == ReqAll(s, Overwrite(Stack(x.msgs, k), rid));
    }
  }

  lemma RidOfLike(x: Ctx, y: Ctx, s: Scope, pid: int, fd: int, id: int)
    requires Like(x, y, s) && ConnOf(x, pid, fd) in s.conns && ConnOf(y, pid, fd) == Ren(s, ConnOf(x, pid, fd))
    ensures RidOf(y, pid, fd, id) == s.req(RidOf(x, pid, fd, id))
  {
    var k := (ConnOf(x, pid, fd), id);
    assert Stack(y.msgs, (Ren(s, k.0), k.1)) == ReqAll(s, Stack(x.msgs, k));
  }

  /** Everything, everywhere. */
  ghost predicate Total(s: Scope) { (forall p :: p in s.procs) && (forall c :: c in s.conns) }

  lemma RenInjective(s: Scope, c: Conn, d: Conn)
    requires OneToOne(s)
    ensures Ren(s, c) == Ren(s, d) <==> c == d
  {
  }

  lemma RenameFdsLike(x: Table<(int, int), Conn>, y: Table<(int, int), Conn>, s: Scope, from: Conn, to: Conn)
    requires OneToOne(s) && FdsLike(x, y, s)
    ensures FdsLike(RenameFds(x, from, to), RenameFds(y, Ren(s, from), Ren(s, to)), s)
  {
    forall k: (int, int) | k.0 in s.procs
      ensures Stack(RenameFds(y, Ren(s, from), Ren(s, to)), k) == RenAll(s, Stack(RenameFds(x, from, to), k))
    {
      RenamedFdLike(x, y, s, from, to, k);
    }
  }

  lemma RenamedFdLike(x: Table<(int, int), Conn>, y: Table<(int, int), Conn>, s: Scope, from: Conn, to: Conn, k: (int, int))
    requires OneToOne(s) && Stack(y, k) == RenAll(s, Stack(x, k))
    ensures Stack(RenameFds(y, Ren(s, from), Ren(s, to)), k) == RenAll(s, Stack(RenameFds(x, from, to), k))
  {
    var st := Stack(x, k);
    if st != [] { RenInjective(s, st[|st| - 1], from); }
    assert Find(y, k) == Some(Ren(s, from)) <==> Find(x, k) == Some(from);
    assert Overwrite(RenAll(s, st), Ren(s, to)) == RenAll(s, Overwrite(st, to));
  }

  lemma RenameMsgsLike(x: Table<(Conn, int), int>, y: Table<(Conn, int), int>, s: Scope, from: Conn, to: Conn)
    requires OneToOne(s) && MsgsLike(x, y, s) && from in s.conns
    ensures MsgsLike(RenameMsgs(x, from, to), RenameMsgs(y, Ren(s, from), Ren(s, to)), s)
  {
    forall k: (Conn, int) | k.0 in s.conns
      ensures Stack(RenameMsgs(y, Ren(s, from), Ren(s, to)), (Ren(s, k.0), k.1)) == ReqAll(s, Stack(RenameMsgs(x, from, to), k))
    {
      RenamedSlotLike(x, y, s, from, to, k);
    }
  }

  lemma RenamedSlotLike(x: Table<(Conn, int), int>, y: Table<(Conn, int), int>, s: Scope, from: Conn, to: Conn, k: (Conn, int))
    requires OneToOne(s) && MsgsLike(x, y, s) && from in s.conns && k.0 in s.conns
    ensures Stack(RenameMsgs(y, Ren(s, from), Ren(s, to)), (Ren(s, k.0), k.1)) == ReqAll(s, Stack(RenameMsgs(x, from, to), k))
  {
    var st, moved := Stack(x, k), Stack(x, (from, k.1));
    assert Stack(y, (Ren(s, k.0), k.1)) == ReqAll(s, st);
    assert Stack(y, (Ren(s, from), k.1)) == ReqAll(s, moved);
    RenInjective(s, from, to);
    RenInjective(s, k.0, from);
    RenInjective(s, k.0, to);
    MovedRenamed(s, st, moved);
  }

  lemma MovedRenamed(s: Scope, st: seq<int>, moved: seq<int>)
    ensures ReqAll(s, st + Reverse(moved)) == ReqAll(s, st) + Reverse(ReqAll(s, moved))
  {
  }
}
