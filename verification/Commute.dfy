/**
  Independent events commute: two neighbouring events of different processes that share no
  connection can change places in a log without any effect but on the names of the connections and
  the numbers of the requests they make.
 */
module Commute {
  import opened Bytes
  import opened Tables
  import opened Join
  import opened JoinTheorems
  import opened Transfer
  import opened Renaming
  import opened RenamedSteps

  predicate Writes(w: What) { w.MessageSend? || w.MessageRecv? }

  /** Both use the same connection, and one of them writes to it. */
  predicate Meet(x: Ctx, a: Event, b: Event) {
    && Used(a.what).Some? && Used(b.what).Some?
    && Find(x.fds, (a.pid, Used(a.what).value)).Some?
    && Find(x.fds, (a.pid, Used(a.what).value)) == Find(x.fds, (b.pid, Used(b.what).value))
    && (Writes(a.what) || Writes(b.what))
  }

  predicate Local(w: What) { !w.Fork? && !w.Connect? }

  predicate Independent(x: Ctx, a: Event, b: Event) {
    a.pid != b.pid && Local(a.what) && Local(b.what) && !Meet(x, a, b)
  }

  // ------------------------------------------------------------------ what an event leaves alone

  lemma NewFrame(x: Ctx, e: Event, fd: int, www: string, p: int)
    requires p != e.pid && (e.what == Open(fd) || e.what == Socket(fd))
    ensures forall k: (int, int) | k.0 == p :: Stack(Step(x, e, www).fds, k) == Stack(x.fds, k)
    ensures Step(x, e, www).dgn == x.dgn
  {
    assert Step(x, e, www) == NewConn(x, e, fd);
  }

  lemma PipeFrame(x: Ctx, e: Event, fi: int, fo: int, www: string, p: int)
    requires p != e.pid && e.what == Pipe(fi, fo)
    ensures forall k: (int, int) | k.0 == p :: Stack(Step(x, e, www).fds, k) == Stack(x.fds, k)
    ensures Step(x, e, www).dgn == x.dgn
  {
    assert Step(x, e, www) == NewPipe(x, e, fi, fo);
  }

  lemma InitFrame(x: Ctx, e: Event, fd: int, www: string, p: int)
    requires e.what == ProtocolInit(fd)
    ensures forall k: (int, int) | k.0 == p :: Stack(Step(x, e, www).fds, k) == Stack(x.fds, k)
    ensures Step(x, e, www).dgn == x.dgn
  {
    var conn := ConnOf(x, e.pid, fd);
    RenameToSelf(x, conn);
    assert Step(x, e, www) == ReplaceAllConn(AfterConnOf(x, e.pid, fd), conn, conn);
    assert Step(x, e, www).fds == ReplaceAllConn(x, conn, conn).fds;
  }

  predicate SetsFd(w: What) { MakesConn(w) || w.Dup? || w.Accept? || w.ProtocolInit? }

  lemma OtherFrame(x: Ctx, e: Event, www: string)
    requires Local(e.what) && !SetsFd(e.what)
    ensures Step(x, e, www).fds == x.fds
  {
    if e.what.MessageRecv? {
      ReceiveFdsFrame(x, e, e.what.mfd, e.what.msgid, www);
    }
  }

  lemma ReceiveFdsFrame(x: Ctx, e: Event, fd: int, id: int, www: string)
    ensures Receive(x, e, fd, id, www).fds == x.fds
  {
  }

  lemma SetFrame(x: Ctx, e: Event, www: string, p: int)
    requires (e.what.Dup? || e.what.Accept?) && p != e.pid
    ensures forall k: (int, int) | k.0 == p :: Stack(Step(x, e, www).fds, k) == Stack(x.fds, k)
    ensures Step(x, e, www).dgn == x.dgn
  {
  }

  /** Local events that set descriptors set those of their own process, and no thread's request. */
  lemma SetsFdFrame(x: Ctx, e: Event, www: string, p: int)
    requires SetsFd(e.what) && p != e.pid
    ensures forall k: (int, int) | k.0 == p :: Stack(Step(x, e, www).fds, k) == Stack(x.fds, k)
    ensures Step(x, e, www).dgn == x.dgn
  {
    match e.what
    case Open(fd) => NewFrame(x, e, fd, www, p);
    case Socket(fd) => NewFrame(x, e, fd, www, p);
    case Pipe(fi, fo) => PipeFrame(x, e, fi, fo, www, p);
    case ProtocolInit(fd) => InitFrame(x, e, fd, www, p);
    case _ => SetFrame(x, e, www, p);
  }

  /** A local event leaves the descriptors of other processes alone. */
  lemma FdsFrame(x: Ctx, e: Event, www: string, p: int)
    requires Local(e.what) && p != e.pid
    ensures forall k: (int, int) | k.0 == p :: Stack(Step(x, e, www).fds, k) == Stack(x.fds, k)
  {
    if SetsFd(e.what) { SetsFdFrame(x, e, www, p); } else { OtherFrame(x, e, www); }
  }

  /** And their threads. */
  lemma DgnFrame(x: Ctx, e: Event, www: string, p: int)
    requires Local(e.what) && p != e.pid
    ensures Mine(Step(x, e, www).dgn, p) == Mine(x.dgn, p)
  {
    if SetsFd(e.what) {
      SetsFdFrame(x, e, www, p);
    } else if e.what.MessageRecv? {
      ReceiveDgnFrame(x, e, e.what.mfd, e.what.msgid, www, p);
    } else {
      ThreadFrame(x, e, www, p);
    }
  }

  lemma ThreadFrame(x: Ctx, e: Event, www: string, p: int)
    requires Local(e.what) && !SetsFd(e.what) && !e.what.MessageRecv? && p != e.pid
    ensures Mine(Step(x, e, www).dgn, p) == Mine(x.dgn, p)
  {
    match e.what
    case Exec(_) => MineCollapse(x.dgn, e.Who(), p);
    case Poll(timeout, fd) => if !timeout { ReadFrame(x, e, fd, www, p); }
    case Read(fd) => ReadFrame(x, e, fd, www, p);
    case _ => EndFrame(x, e, www, p);
  }

  lemma ReadFrame(x: Ctx, e: Event, fd: int, www: string, p: int)
    requires p != e.pid && (e.what == Read(fd) || e.what == Poll(false, fd))
    ensures Mine(Step(x, e, www).dgn, p) == Mine(x.dgn, p)
  {
    MineSet(x.dgn, e.Who(), RidOf(x, e.pid, fd, FAKE), p);
  }

  lemma EndFrame(x: Ctx, e: Event, www: string, p: int)
    requires p != e.pid && !SetsFd(e.what) && !e.what.MessageRecv? && Local(e.what) && !e.what.Exec? && !e.what.Read? && !e.what.Poll?
    ensures Mine(Step(x, e, www).dgn, p) == Mine(x.dgn, p)
  {
    if e.what in {Exit, Abort, Shutdown} {
      MineSet(x.dgn, e.Who(), NONE, p);
    } else {
      assert Step(x, e, www).dgn == x.dgn;
    }
  }

  lemma ReceiveDgnFrame(x: Ctx, e: Event, fd: int, id: int, www: string, p: int)
    requires p != e.pid
    ensures Mine(Receive(x, e, fd, id, www).dgn, p) == Mine(x.dgn, p)
  {
    var looked := AfterConnOf(x, e.pid, fd);
    MineSet(x.dgn, e.Who(), if Distinguished(ConnOf(x, e.pid, fd), www) then x.genrid + 1 else RidOf(looked, e.pid, fd, id), p);
  }

  /** What one of two independent events touches, the other does not disturb, before or after it. */
  lemma NotDisturbed(x: Ctx, y: Ctx, a: Event, b: Event, www: string, c: Conn, id: int)
    requires Sane(x) && Independent(x, a, b) && Touched(x, a, www, c)
    requires y.gensym >= x.gensym && Known(c, y.gensym)
    requires forall k: (int, int) | k.0 == b.pid :: Stack(y.fds, k) == Stack(x.fds, k)
    ensures !Disturbs(y, b, c, id)
  {
    if Disturbs(y, b, c, id) {
      var k := (b.pid, Used(b.what).value);
      assert Stack(y.fds, k) == Stack(x.fds, k) && ConnOf(y, b.pid, k.1) == c;
      assert Find(x.fds, k) == Some(c);
      ConnOfSane(x, b.pid, k.1);
    }
  }

  // ------------------------------------------------------------------ old names stay

  ghost predicate Keeps(s: Scope, x: Ctx) {
    && OneToOne(s)
    && (forall n | n <= x.gensym :: s.conn(n) == n)
    && (forall r | r <= x.genrid :: s.req(r) == r)
  }

  lemma KeptFds(x: Ctx, s: Scope, k: (int, int))
    requires Sane(x) && Keeps(s, x)
    ensures RenAll(s, Stack(x.fds, k)) == Stack(x.fds, k)
  {
  }

  lemma KeptMsgs(x: Ctx, s: Scope, k: (Conn, int))
    requires Sane(x) && Keeps(s, x)
    ensures ReqAll(s, Stack(x.msgs, k)) == Stack(x.msgs, k)
    ensures Known(k.0, x.gensym) ==> Ren(s, k.0) == k.0
  {
  }

  lemma KeptDgn(x: Ctx, s: Scope, p: int)
    requires Sane(x) && Keeps(s, x)
    ensures DgnAll(s, Mine(x.dgn, p)) == Mine(x.dgn, p)
  {
    MineOnly(x.dgn, p);
    var mine := Mine(x.dgn, p);
    forall i | 0 <= i < |mine| ensures s.req(mine[i].rid) == mine[i].rid {
      assert mine[i] in mine && mine[i] in x.dgn;
    }
  }

  lemma Unbound(x: Ctx, c: Conn, id: int)
    requires Sane(x) && !Known(c, x.gensym)
    ensures Stack(x.msgs, (c, id)) == []
  {
    var k := (c, id);
    assert Stack(x.msgs, k) == [] || Known(k.0, x.gensym);
  }

  // ------------------------------------------------------------------ one of the two events

  /** The scope of event `a`: its process, and what it touches. */
  ghost predicate ScopeOf(s: Scope, x: Ctx, a: Event, b: Event, www: string) {
    && Sane(x) && Independent(x, a, b) && Keeps(s, x)
    && s.procs == iset{a.pid}
    && (forall c :: c in s.conns <==> Touched(x, a, www, c))
    && InTurn(x, Step(x, b, www), a, www, s)
  }

  /** To `a` it makes no difference whether `b` has happened. */
  lemma LikeBefore(x: Ctx, a: Event, b: Event, www: string, s: Scope)
    requires ScopeOf(s, x, a, b, www)
    ensures Like(x, Step(x, b, www), s)
  {
    var y := Step(x, b, www);
    StepCounts(x, b, www);
    StepSane(x, b, www);
    FdsFrame(x, b, www, a.pid);
    DgnFrame(x, b, www, a.pid);
    KeptDgn(x, s, a.pid);
    forall k: (int, int) | k.0 in s.procs ensures Stack(y.fds, k) == RenAll(s, Stack(x.fds, k)) { KeptFds(x, s, k); }
    forall k: (Conn, int) | k.0 in s.conns ensures Stack(y.msgs, (Ren(s, k.0), k.1)) == ReqAll(s, Stack(x.msgs, k)) {
      TouchedBefore(x, a, b, www, s, k.0, k.1);
    }
  }

  lemma TouchedBefore(x: Ctx, a: Event, b: Event, www: string, s: Scope, c: Conn, id: int)
    requires ScopeOf(s, x, a, b, www) && Touched(x, a, www, c) && Sane(Step(x, b, www))
    ensures Stack(Step(x, b, www).msgs, (Ren(s, c), id)) == ReqAll(s, Stack(x.msgs, (c, id)))
  {
    if Known(c, x.gensym) {
      NotDisturbed(x, x, a, b, www, c, id);
      SlotKept(x, b, www, c, id);
      KeptMsgs(x, s, (c, id));
    } else {
      FreshTouched(x, a, www, c);
      assert s.conn(c.n) == c.n + (Step(x, b, www).gensym - x.gensym);
      Unbound(x, c, id);
      Unbound(Step(x, b, www), Ren(s, c), id);
    }
  }

  /** A connection an event touches is one it knows or one it makes. */
  lemma FreshTouched(x: Ctx, e: Event, www: string, c: Conn)
    requires Sane(x) && Touched(x, e, www, c) && !Known(c, x.gensym)
    ensures c.GenSym? && x.gensym < c.n <= Step(x, e, www).gensym
  {
    if !(c.GenSym? && x.gensym < c.n <= Step(x, e, www).gensym) {
      var fd := Used(e.what).value;
      ConnOfSane(x, e.pid, fd);
      assert c == Fresh(x);
      UsesName(x, e, www);
    }
  }

  lemma UsesName(x: Ctx, e: Event, www: string)
    requires Used(e.what).Some? && Find(x.fds, (e.pid, Used(e.what).value)).None?
    ensures Step(x, e, www).gensym > x.gensym
  {
  }

  /** What `a` did is still there after `b`. */
  lemma LikeAfter(x: Ctx, a: Event, b: Event, www: string, s: Scope, v: Ctx)
    requires ScopeOf(s, x, a, b, www) && Like(Step(x, a, www), v, s)
    ensures Like(Step(Step(x, a, www), b, www), v, s)
  {
    var xa := Step(x, a, www);
    StepCounts(x, a, www);
    FdsFrame(x, a, www, b.pid);
    FdsFrame(xa, b, www, a.pid);
    DgnFrame(xa, b, www, a.pid);
    forall k: (Conn, int) | k.0 in s.conns
      ensures Stack(v.msgs, (Ren(s, k.0), k.1)) == ReqAll(s, Stack(Step(xa, b, www).msgs, k))
    {
      if !Known(k.0, x.gensym) { FreshTouched(x, a, www, k.0); }
      NotDisturbed(x, xa, a, b, www, k.0, k.1);
      SlotKept(xa, b, www, k.0, k.1);
      assert Stack(v.msgs, (Ren(s, k.0), k.1)) == ReqAll(s, Stack(xa.msgs, k));
    }
  }

  /** For what concerns `a`, the two orders agree. */
  lemma HalfSwap(x: Ctx, a: Event, b: Event, www: string, s: Scope)
    requires ScopeOf(s, x, a, b, www)
    ensures Like(Step(Step(x, a, www), b, www), Step(Step(x, b, www), a, www), s)
    ensures Step(Step(x, b, www), a, www).gensym - Step(x, b, www).gensym == Step(x, a, www).gensym - x.gensym
    ensures Step(Step(x, b, www), a, www).genrid - Step(x, b, www).genrid == Step(x, a, www).genrid - x.genrid
  {
    LikeBefore(x, a, b, www, s);
    StepLike(x, Step(x, b, www), s, a, www);
    LikeAfter(x, a, b, www, s, Step(Step(x, b, www), a, www));
  }

  // ------------------------------------------------------------------ both events

  /** Two blocks of fresh numbers, `i` and `j` of them, change places. */
  function Swapped(g: int, i: int, j: int): int -> int {
    n => if g < n <= g + i then n + j else if g + i < n <= g + i + j then n - i else n
  }

  ghost function Renamed(x: Ctx, a: Event, b: Event, www: string, procs: iset<int>, conns: iset<Conn>): Scope {
    Scope(Swapped(x.gensym, Step(x, a, www).gensym - x.gensym, Step(x, b, www).gensym - x.gensym),
          Swapped(x.genrid, Step(x, a, www).genrid - x.genrid, Step(x, b, www).genrid - x.genrid),
          procs, conns)
  }

  lemma SwappedBack(g: int, i: nat, j: nat, n: int)
    ensures Swapped(g, j, i)(Swapped(g, i, j)(n)) == n
  {
  }

  lemma RenamedKeeps(x: Ctx, a: Event, b: Event, www: string, procs: iset<int>, conns: iset<Conn>)
    ensures Keeps(Renamed(x, a, b, www, procs, conns), x)
    ensures InTurn(x, Step(x, b, www), a, www, Renamed(x, a, b, www, procs, conns))
  {
    StepCounts(x, a, www);
    StepCounts(x, b, www);
    var s := Renamed(x, a, b, www, procs, conns);
    var i, j := Step(x, a, www).gensym - x.gensym, Step(x, b, www).gensym - x.gensym;
    var k, l := Step(x, a, www).genrid - x.genrid, Step(x, b, www).genrid - x.genrid;
    forall m, n | s.conn(m) == s.conn(n) ensures m == n { SwappedBack(x.gensym, i, j, m); SwappedBack(x.gensym, i, j, n); }
    forall m, n | s.req(m) == s.req(n) ensures m == n { SwappedBack(x.genrid, k, l, m); SwappedBack(x.genrid, k, l, n); }
  }

  /** A renaming can be read the other way. */
  lemma LikeBack(u: Ctx, v: Ctx, s: Scope, t: Scope)
    requires Like(u, v, s) && OneToOne(t) && t.procs == s.procs
    requires forall n :: s.conn(t.conn(n)) == n && t.conn(s.conn(n)) == n
    requires forall r :: t.req(s.req(r)) == r
    requires forall c | c in t.conns :: Ren(t, c) in s.conns
    ensures Like(v, u, t)
  {
    forall k: (int, int) | k.0 in t.procs ensures Stack(u.fds, k) == RenAll(t, Stack(v.fds, k)) {
      assert Stack(v.fds, k) == RenAll(s, Stack(u.fds, k));
    }
    forall k: (Conn, int) | k.0 in t.conns ensures Stack(u.msgs, (Ren(t, k.0), k.1)) == ReqAll(t, Stack(v.msgs, k)) {
      var c := Ren(t, k.0);
      assert Ren(s, c) == k.0;
      var j := (c, k.1);
      assert Stack(v.msgs, (Ren(s, j.0), j.1)) == ReqAll(s, Stack(u.msgs, j));
      ReqBack(Stack(u.msgs, j), s, t);
    }
    forall p | p in t.procs ensures Mine(u.dgn, p) == DgnAll(t, Mine(v.dgn, p)) {
      assert Mine(v.dgn, p) == DgnAll(s, Mine(u.dgn, p));
      DgnBack(Mine(u.dgn, p), s, t);
    }
  }

  lemma ReqBack(rs: seq<int>, s: Scope, t: Scope)
    requires forall r :: t.req(s.req(r)) == r
    ensures ReqAll(t, ReqAll(s, rs)) == rs
  {
    forall i | 0 <= i < |rs| ensures ReqAll(t, ReqAll(s, rs))[i] == rs[i] { assert t.req(s.req(rs[i])) == rs[i]; }
  }

  lemma DgnBack(d: seq<Dgn>, s: Scope, t: Scope)
    requires forall r :: t.req(s.req(r)) == r
    ensures DgnAll(t, DgnAll(s, d)) == d
  {
    forall i | 0 <= i < |d| ensures DgnAll(t, DgnAll(s, d))[i] == d[i] {
      assert t.req(s.req(d[i].rid)) == d[i].rid;
    }
  }

  /** Processes and connections that neither event is about. */
  ghost predicate Aside(x: Ctx, a: Event, b: Event, www: string, s: Scope) {
    && (forall p | p in s.procs :: p != a.pid && p != b.pid)
    && (forall c | c in s.conns :: !Touched(x, a, www, c) && !Touched(x, b, www, Ren(s, c)))
  }

  lemma UntouchedKept(x: Ctx, y: Ctx, e: Event, www: string, c: Conn, id: int)
    requires Sane(x) && Local(e.what) && Known(c, x.gensym) && !Touched(x, e, www, c) && y.gensym >= x.gensym
    requires forall k: (int, int) | k.0 == e.pid :: Stack(y.fds, k) == Stack(x.fds, k)
    ensures Stack(Step(y, e, www).msgs, (c, id)) == Stack(y.msgs, (c, id))
  {
    if Used(e.what).Some? {
      var k := (e.pid, Used(e.what).value);
      assert Stack(y.fds, k) == Stack(x.fds, k);
    }
    SlotKept(y, e, www, c, id);
  }

  /** An old connection that neither event touches keeps its messages over both. */
  lemma OldUntouched(x: Ctx, a: Event, b: Event, www: string, c: Conn, id: int)
    requires Sane(x) && a.pid != b.pid && Local(a.what) && Local(b.what) && Known(c, x.gensym)
    requires !Touched(x, a, www, c) && !Touched(x, b, www, c)
    ensures Stack(Step(Step(x, a, www), b, www).msgs, (c, id)) == Stack(x.msgs, (c, id))
  {
    StepCounts(x, a, www);
    FdsFrame(x, a, www, b.pid);
    UntouchedKept(x, x, a, www, c, id);
    UntouchedKept(x, Step(x, a, www), b, www, c, id);
  }

  /** The sizes of both blocks, in both orders. */
  ghost predicate SameCounts(x: Ctx, a: Event, b: Event, www: string) {
    var xa, xb := Step(x, a, www), Step(x, b, www);
    && Step(xa, b, www).gensym == xa.gensym + xb.gensym - x.gensym == Step(xb, a, www).gensym
    && Step(xa, b, www).genrid == xa.genrid + xb.genrid - x.genrid == Step(xb, a, www).genrid
  }

  lemma SlotAside(x: Ctx, a: Event, b: Event, www: string, s: Scope, c: Conn, id: int)
    requires Sane(x) && Independent(x, a, b) && SameCounts(x, a, b, www)
    requires s == Renamed(x, a, b, www, s.procs, s.conns) && !Touched(x, a, www, c) && !Touched(x, b, www, Ren(s, c))
    ensures var u, v := Step(Step(x, a, www), b, www), Step(Step(x, b, www), a, www);
            Stack(v.msgs, (Ren(s, c), id)) == ReqAll(s, Stack(u.msgs, (c, id)))
  {
    RenamedKeeps(x, a, b, www, s.procs, s.conns);
    if Known(c, x.gensym) {
      OldUntouched(x, a, b, www, c, id);
      OldUntouched(x, b, a, www, c, id);
      KeptMsgs(x, s, (c, id));
    } else {
      StepSane(x, a, www);
      StepSane(x, b, www);
      StepSane(Step(x, a, www), b, www);
      StepSane(Step(x, b, www), a, www);
      Unbound(Step(Step(x, a, www), b, www), c, id);
      Unbound(Step(Step(x, b, www), a, www), Ren(s, c), id);
    }
  }

  lemma LikeAside(x: Ctx, a: Event, b: Event, www: string, s: Scope)
    requires Sane(x) && Independent(x, a, b) && SameCounts(x, a, b, www)
    requires s == Renamed(x, a, b, www, s.procs, s.conns) && Aside(x, a, b, www, s)
    ensures Like(Step(Step(x, a, www), b, www), Step(Step(x, b, www), a, www), s)
  {
    var xa, xb := Step(x, a, www), Step(x, b, www);
    var u, v := Step(xa, b, www), Step(xb, a, www);
    RenamedKeeps(x, a, b, www, s.procs, s.conns);
    forall k: (int, int) | k.0 in s.procs ensures Stack(v.fds, k) == RenAll(s, Stack(u.fds, k)) {
      FdsFrame(x, a, www, k.0);
      FdsFrame(xa, b, www, k.0);
      FdsFrame(x, b, www, k.0);
      FdsFrame(xb, a, www, k.0);
      KeptFds(x, s, k);
    }
    forall p | p in s.procs ensures Mine(v.dgn, p) == DgnAll(s, Mine(u.dgn, p)) {
      DgnFrame(x, a, www, p);
      DgnFrame(xa, b, www, p);
      DgnFrame(x, b, www, p);
      DgnFrame(xb, a, www, p);
      KeptDgn(x, s, p);
    }
    forall k: (Conn, int) | k.0 in s.conns ensures Stack(v.msgs, (Ren(s, k.0), k.1)) == ReqAll(s, Stack(u.msgs, k)) {
      SlotAside(x, a, b, www, s, k.0, k.1);
    }
  }

  // ------------------------------------------------------------------ the two orders

  ghost const AllProcs := iset p: int | true
  ghost const AllConns := iset c: Conn | true

  /** The renaming between the two orders. */
  ghost function Across(x: Ctx, a: Event, b: Event, www: string): Scope { Renamed(x, a, b, www, AllProcs, AllConns) }

  lemma FirstHalf(x: Ctx, a: Event, b: Event, www: string)
    requires Sane(x) && Independent(x, a, b)
    ensures Like(Step(Step(x, a, www), b, www), Step(Step(x, b, www), a, www),
                 Renamed(x, a, b, www, iset{a.pid}, iset c | Touched(x, a, www, c)))
    ensures var xa, xb := Step(x, a, www), Step(x, b, www);
            && Step(xb, a, www).gensym == xa.gensym + xb.gensym - x.gensym
            && Step(xb, a, www).genrid == xa.genrid + xb.genrid - x.genrid
  {
    var s := Renamed(x, a, b, www, iset{a.pid}, iset c | Touched(x, a, www, c));
    RenamedKeeps(x, a, b, www, s.procs, s.conns);
    HalfSwap(x, a, b, www, s);
  }

  lemma SecondHalf(x: Ctx, a: Event, b: Event, www: string)
    requires Sane(x) && Independent(x, a, b)
    ensures Like(Step(Step(x, a, www), b, www), Step(Step(x, b, www), a, www),
                 Renamed(x, a, b, www, iset{b.pid}, iset c | Touched(x, b, www, Ren(Across(x, a, b, www), c))))
  {
    StepCounts(x, a, www);
    StepCounts(x, b, www);
    FirstHalf(x, b, a, www);
    var s := Renamed(x, b, a, www, iset{b.pid}, iset c | Touched(x, b, www, c));
    var t := Renamed(x, a, b, www, iset{b.pid}, iset c | Touched(x, b, www, Ren(Across(x, a, b, www), c)));
    RenamedKeeps(x, a, b, www, t.procs, t.conns);
    TransposedBack(x, a, b, www, s, t);
    LikeBack(Step(Step(x, b, www), a, www), Step(Step(x, a, www), b, www), s, t);
  }

  lemma TransposedBack(x: Ctx, a: Event, b: Event, www: string, s: Scope, t: Scope)
    requires s == Renamed(x, b, a, www, s.procs, s.conns) && t == Renamed(x, a, b, www, t.procs, t.conns)
    ensures forall n :: s.conn(t.conn(n)) == n && t.conn(s.conn(n)) == n
    ensures forall r :: t.req(s.req(r)) == r
  {
    StepCounts(x, a, www);
    StepCounts(x, b, www);
    var i, j := Step(x, a, www).gensym - x.gensym, Step(x, b, www).gensym - x.gensym;
    var k, l := Step(x, a, www).genrid - x.genrid, Step(x, b, www).genrid - x.genrid;
    forall n ensures s.conn(t.conn(n)) == n && t.conn(s.conn(n)) == n {
      SwappedBack(x.gensym, i, j, n);
      SwappedBack(x.gensym, j, i, n);
    }
    forall r ensures t.req(s.req(r)) == r { SwappedBack(x.genrid, l, k, r); }
  }

  /** The two orders of independent events lead to the same context, renamed. */
  lemma IndependentEventsSwap(x: Ctx, a: Event, b: Event, www: string)
    requires Sane(x) && Independent(x, a, b)
    ensures Like(Step(Step(x, a, www), b, www), Step(Step(x, b, www), a, www), Across(x, a, b, www))
    ensures SameCounts(x, a, b, www)
  {
    FirstHalf(x, a, b, www);
    FirstHalf(x, b, a, www);
    SecondHalf(x, a, b, www);
    var s := Across(x, a, b, www);
    var rest := Renamed(x, a, b, www, AllProcs - iset{a.pid, b.pid},
                        iset c | !Touched(x, a, www, c) && !Touched(x, b, www, Ren(s, c)));
    LikeAside(x, a, b, www, rest);
    LikeTogether(Step(Step(x, a, www), b, www), Step(Step(x, b, www), a, www), s,
                 Renamed(x, a, b, www, iset{a.pid}, iset c | Touched(x, a, www, c)),
                 Renamed(x, a, b, www, iset{b.pid}, iset c | Touched(x, b, www, Ren(s, c))), rest);
  }

  /** Scopes with the same renaming that cover everything between them. */
  lemma LikeTogether(u: Ctx, v: Ctx, s: Scope, s1: Scope, s2: Scope, s3: Scope)
    requires Like(u, v, s1) && Like(u, v, s2) && Like(u, v, s3)
    requires s1.conn == s2.conn == s3.conn == s.conn && s1.req == s2.req == s3.req == s.req
    requires forall p :: p in s1.procs || p in s2.procs || p in s3.procs
    requires forall c :: c in s1.conns || c in s2.conns || c in s3.conns
    ensures Like(u, v, s)
  {
    LikeIn(u, v, s, s1);
    LikeIn(u, v, s, s2);
    LikeIn(u, v, s, s3);
    forall k: (int, int) | k.0 in s.procs ensures Stack(v.fds, k) == RenAll(s, Stack(u.fds, k)) {
      var p: int := k.0;
      assert p in s1.procs || p in s2.procs || p in s3.procs;
    }
    forall k: (Conn, int) | k.0 in s.conns ensures Stack(v.msgs, (Ren(s, k.0), k.1)) == ReqAll(s, Stack(u.msgs, k)) {
      assert k.0 in s1.conns || k.0 in s2.conns || k.0 in s3.conns;
    }
    forall p | p in s.procs ensures Mine(v.dgn, p) == DgnAll(s, Mine(u.dgn, p)) {
      assert p in s1.procs || p in s2.procs || p in s3.procs;
    }
  }

  lemma LikeIn(u: Ctx, v: Ctx, s: Scope, r: Scope)
    requires Like(u, v, r) && r.conn == s.conn && r.req == s.req
    ensures forall k: (int, int) | k.0 in r.procs :: Stack(v.fds, k) == RenAll(s, Stack(u.fds, k))
    ensures forall k: (Conn, int) | k.0 in r.conns :: Stack(v.msgs, (Ren(s, k.0), k.1)) == ReqAll(s, Stack(u.msgs, k))
    ensures forall p | p in r.procs :: Mine(v.dgn, p) == DgnAll(s, Mine(u.dgn, p))
    ensures OneToOne(s)
  {
    assert forall st :: RenAll(r, st) == RenAll(s, st);
    assert forall st :: ReqAll(r, st) == ReqAll(s, st);
    assert forall d :: DgnAll(r, d) == DgnAll(s, d);
    assert forall c :: Ren(r, c) == Ren(s, c);
  }

  // ------------------------------------------------------------------ whole logs

  /** `y` is `x` under a renaming that does not touch names still to be given out. */
  ghost predicate Alike(x: Ctx, y: Ctx, s: Scope) {
    && Total(s) && Like(x, y, s) && x.gensym == y.gensym && x.genrid == y.genrid
    && (forall n | n > x.gensym :: s.conn(n) == n)
    && (forall r | r > x.genrid :: s.req(r) == r)
  }

  lemma StepAlike(x: Ctx, y: Ctx, s: Scope, e: Event, www: string)
    requires Alike(x, y, s)
    ensures Alike(Step(x, e, www), Step(y, e, www), s)
  {
    StepCounts(x, e, www);
    StepLike(x, y, s, e, www);
  }

  lemma SwapAlike(x: Ctx, a: Event, b: Event, www: string)
    requires Sane(x) && Independent(x, a, b)
    ensures Alike(Step(Step(x, a, www), b, www), Step(Step(x, b, www), a, www), Across(x, a, b, www))
  {
    StepCounts(x, a, www);
    StepCounts(x, b, www);
    IndependentEventsSwap(x, a, b, www);
  }

  lemma TwoSteps(es: seq<Event>, i: nat, www: string)
    requires i + 1 < |es|
    ensures StateAt(es, i + 2, www) == Step(Step(StateAt(es, i, www), es[i], www), es[i + 1], www)
  {
    assert StateAt(es, i + 1, www) == Step(StateAt(es, i, www), es[i], www);
  }

  /** The logs differ in the order of events `i` and `i + 1`. */
  predicate Exchanged(es: seq<Event>, fs: seq<Event>, i: nat) {
    && |es| == |fs| && i + 1 < |es| && es[i] == fs[i + 1] && es[i + 1] == fs[i]
    && forall k | 0 <= k < |es| && k != i && k != i + 1 :: es[k] == fs[k]
  }

  /**
    Exchanging two neighbouring independent events of a log changes nothing in any later context but
    the names and numbers the two events made.
   */
  lemma {:induction false} IndependentEventsCommute(es: seq<Event>, fs: seq<Event>, i: nat, n: nat, www: string)
    requires Exchanged(es, fs, i) && i + 2 <= n <= |es|
    requires Independent(StateAt(es, i, www), es[i], es[i + 1])
    ensures Alike(StateAt(es, n, www), StateAt(fs, n, www), Across(StateAt(es, i, www), es[i], es[i + 1], www))
    decreases n
  {
    var x := StateAt(es, i, www);
    if n == i + 2 {
      NoInventedRequests(es, i, www);
      SamePrefix(es, fs, i, www);
      SwapAlike(x, es[i], es[i + 1], www);
      TwoSteps(es, i, www);
      TwoSteps(fs, i, www);
    } else {
      IndependentEventsCommute(es, fs, i, n - 1, www);
      StepAlike(StateAt(es, n - 1, www), StateAt(fs, n - 1, www), Across(x, es[i], es[i + 1], www), es[n - 1], www);
    }
  }

  /** What alike contexts answer. */
  lemma AlikeAnswers(x: Ctx, y: Ctx, s: Scope, m: Mid, pid: int, fd: int, id: int)
    requires Alike(x, y, s)
    ensures DgnGet(y.dgn, m) == s.req(DgnGet(x.dgn, m))
    ensures ConnOf(y, pid, fd) == Ren(s, ConnOf(x, pid, fd))
    ensures RidOf(y, pid, fd, id) == s.req(RidOf(x, pid, fd, id))
  {
    GetLike(x.dgn, y.dgn, s, m);
    ConnOfLike(x, y, s, pid, fd);
    RidOfLike(x, y, s, pid, fd, id);
  }

  /** Received before it was sent: the request is missed. */
  lemma ReceivedTooEarly(x: Ctx, a: Event, b: Event, www: string)
    requires a == Event(1, 1, MessageSend(4, 7)) && b == Event(2, 2, MessageRecv(3, 7)) && www != []
    requires Find(x.fds, (2, 3)) == Some(HostPort("")) && Stack(x.msgs, (HostPort(""), 7)) == []
    ensures DgnGet(Step(Step(x, b, www), a, www).dgn, Mid(2, 2)) == NONE
  {
    DgnGetSet(x.dgn, Mid(2, 2), NONE, Mid(2, 2));
    assert Step(x, b, www).dgn == DgnSet(x.dgn, Mid(2, 2), NONE);
    assert Step(Step(x, b, www), a, www).dgn == Step(x, b, www).dgn;
  }

  /**
    A send and a receive on one connection do not commute, here in a whole log: in the order they
    happened the back end works for the front end's request, in the other for none.
   */
  lemma OrderMattersOnASharedConnection(www: string)
    requires www != []
    ensures var es := FrontToBack(www);
            var fs := es[..4] + [es[5], es[4]];
            && Exchanged(es, fs, 4) && Meet(StateAt(es, 4, www), es[4], es[5])
            && DgnGet(StateAt(es, 6, www).dgn, Mid(2, 2)) == 1 && DgnGet(StateAt(fs, 6, www).dgn, Mid(2, 2)) == NONE
  {
    var es := FrontToBack(www);
    var fs := es[..4] + [es[5], es[4]];
    FrontReady(www);
    RequestReachesBackEnd(www);
    SamePrefix(es, fs, 4, www);
    ReceivedTooEarly(StateAt(es, 4, www), es[4], es[5], www);
    TwoSteps(fs, 4, www);
  }
}
