/** The daemon's main loop over all its connections (logd.c). */
module Daemons {
  import opened Kernels
  import opened Records
  import opened RelayBooks
  import opened Logd

  class Daemon {
    const out: OutFile
    var active: set<Relay>         // the connections select() watches
    ghost var all: set<Relay>      // those, and the ones that have ended

    /** Every connection is where its books say, and the file holds what they say it sent. */
    ghost predicate Good(conns: set<Relay>)
      reads out, conns, (set r | r in conns :: r.relay), (set r | r in conns :: r.kernel)
    {
      && out.Valid() && Apart(conns)
      && forall r | r in conns :: r.Valid() && r.InStep(out)
    }

    ghost predicate Apart(conns: set<Relay>) {
      forall r, s | r in conns && s in conns && r != s ::
        r.conn != s.conn && r.relay != s.relay && r.kernel != s.kernel
    }

    /**
      The file is whole records, and its records from each connection are that connection's
      records, from the first, in order, each with its time difference.
     */
    ghost predicate Valid()
      reads this, out, all, (set r | r in all :: r.relay), (set r | r in all :: r.kernel)
    {
      Good(all) && Watched(active, all)
    }

    /** Watched connections hold less than a record; the others have nothing left to move. */
    ghost predicate Watched(watching: set<Relay>, conns: set<Relay>)
      reads conns, (set r | r in conns :: r.relay)
    {
      && watching <= conns
      && (forall r | r in watching :: r.bEnd < MAX_RECORD)
      && (forall r | r in conns && r !in watching :: r.AtRest())
    }

    constructor (out: OutFile)
      requires out.Valid() && out.tagged == []
      ensures Valid() && active == all == {} && this.out == out
    {
      this.out, active, all := out, {}, {};
    }

    /** A new connection, on a descriptor whose last connection left nothing behind. */
    method Accept(conn: int, kernel: Kernel, clock: Clock, staleDiff: Timeval, plan: seq<Record>) returns (r: Relay)
      requires Valid() && Right(clock) && kernel.handed == [] && AllWf(plan) && kernel.incoming <= EncodeAll(plan)
      requires forall s | s in all :: s.conn != conn && s.kernel != kernel
      requires Project(out.tagged, conn) == []
      modifies this`active, this`all
      ensures Valid() && fresh(r) && active == old(active) + {r} && all == old(all) + {r}
      ensures r.conn == conn && r.kernel == kernel && r.clock == clock && r.plan == plan && r.start == staleDiff && r.shifts == []
    {
      r := NewWatched(conn, kernel, clock, staleDiff, plan);
      SetWatched(active + {r}, all + {r});
    }

    /** The descriptors `select` watches from now on. */
    method SetWatched(watching: set<Relay>, ghost more: set<Relay>)
      requires Good(more) && Watched(watching, more)
      modifies this`active, this`all
      ensures Valid() && active == watching && all == more
    {
      active, all := watching, more;
      assert Good(more);
    }

    method NewWatched(conn: int, kernel: Kernel, clock: Clock, staleDiff: Timeval, plan: seq<Record>)
      returns (r: Relay)
      requires Good(all) && Watched(active, all) && Right(clock) && kernel.handed == [] && AllWf(plan) && kernel.incoming <= EncodeAll(plan)
      requires forall s | s in all :: s.conn != conn && s.kernel != kernel
      requires Project(out.tagged, conn) == []
      ensures fresh(r) && Good(all + {r}) && Watched(active + {r}, all + {r})
      ensures r.conn == conn && r.kernel == kernel && r.clock == clock && r.plan == plan && r.start == staleDiff && r.shifts == []
    {
      r := NewAmong(conn, kernel, clock, staleDiff, plan);
      assert Watched(active, all);
      WatchedToo(r);
    }

    lemma WatchedToo(r: Relay)
      requires Watched(active, all) && r.bEnd == 0
      ensures Watched(active + {r}, all + {r})
    {
    }

    method NewAmong(conn: int, kernel: Kernel, clock: Clock, staleDiff: Timeval, plan: seq<Record>)
      returns (r: Relay)
      requires Good(all) && Right(clock) && kernel.handed == [] && AllWf(plan) && kernel.incoming <= EncodeAll(plan)
      requires forall s | s in all :: s.conn != conn && s.kernel != kernel
      requires Project(out.tagged, conn) == []
      ensures fresh(r) && Good(all + {r}) && r.bEnd == 0
      ensures r.conn == conn && r.kernel == kernel && r.clock == clock && r.plan == plan && r.start == staleDiff && r.shifts == []
    {
      label before:
      r := NewRelay(conn, kernel, clock, staleDiff, plan);
      assert r.InStep(out);
      forall s | s in all ensures s.Valid() && s.InStep(out) && s != r && s.relay != r.relay {
        assert old@before(s.Valid()) && old@before(s.InStep(out));
        assert unchanged@before(s) && unchanged@before(s.relay) && unchanged@before(s.kernel);
      }
    }

    method NewRelay(conn: int, kernel: Kernel, clock: Clock, staleDiff: Timeval, plan: seq<Record>) returns (r: Relay)
      requires Right(clock) && kernel.handed == [] && AllWf(plan) && kernel.incoming <= EncodeAll(plan)
      ensures fresh(r) && fresh(r.relay) && r.Valid() && r.bEnd == 0 && r.moved == []
      ensures r.conn == conn && r.kernel == kernel && r.clock == clock && r.plan == plan && r.start == staleDiff && r.shifts == []
    {
      r := new Relay.Accept(conn, kernel, clock, 0, staleDiff, plan);
      StartFollows(plan, staleDiff, clock);
    }

    /**
      One ready connection: read from it, and when it has ended move what is left to the file and
      stop watching it.
     */
    method Service(r: Relay) returns (n: int)
      requires Valid() && r in active
      modifies this`active, this`all, r, r.relay, r.kernel, out
      ensures Valid() && all == old(all) && active == if n > 0 then old(active) else old(active) - {r}
      ensures r.Served(n, old(r.kernel.handed), old(r.kernel.incoming), old(r.kernel.calls))
    {
      n := HandleOne(r);
      SetWatched(if n > 0 then active else active - {r}, all);
    }

    method HandleOne(r: Relay) returns (n: int)
      requires Good(all) && Watched(active, all) && r in active
      modifies r, r.relay, r.kernel, out
      ensures Good(all) && Watched(if n > 0 then active else active - {r}, all)
      ensures r.Served(n, old(r.kernel.handed), old(r.kernel.incoming), old(r.kernel.calls))
    {
      n := HandleAmong(r);
      StillWatched(r, n);
    }

    lemma StillWatched(r: Relay, n: int)
      requires r in active && active <= all && r.bEnd < MAX_RECORD && (n <= 0 ==> r.AtRest())
      requires OthersWatched(r)
      ensures Watched(if n > 0 then active else active - {r}, all)
    {
    }

    ghost predicate OthersWatched(r: Relay)
      reads this, all, (set s | s in all :: s.relay)
    {
      && (forall s | s in active && s in all && s != r :: s.bEnd < MAX_RECORD)
      && (forall s | s in all && s !in active :: s.AtRest())
    }

    /** The other connections do not notice. */
    method HandleAmong(r: Relay) returns (n: int)
      requires Good(all) && r in active && active <= all && r.bEnd < MAX_RECORD
      modifies r, r.relay, r.kernel, out
      ensures Good(all) && r.bEnd < MAX_RECORD
      ensures r.Served(n, old(r.kernel.handed), old(r.kernel.incoming), old(r.kernel.calls))
      ensures old(OthersWatched(r)) ==> OthersWatched(r)
    {
      label before:
      n := HandleAlone(r);
      forall s | s in all && s != r ensures s.bEnd == old(s.bEnd) && (old(s.AtRest()) ==> s.AtRest()) {
        assert unchanged@before(s) && unchanged@before(s.relay);
      }
    }

    method HandleAlone(r: Relay) returns (n: int)
      requires Good(all) && r in all && r.bEnd < MAX_RECORD
      modifies r, r.relay, r.kernel, out
      ensures Good(all) && r.bEnd < MAX_RECORD
      ensures r.Served(n, old(r.kernel.handed), old(r.kernel.incoming), old(r.kernel.calls))
      ensures forall s | s in all && s != r :: unchanged(s) && unchanged(s.relay)
    {
      label before:
      n := Handle(r);
      forall s | s in all && s != r ensures s.Valid() && s.InStep(out) {
        assert old@before(s.Valid()) && old@before(s.InStep(out));
        assert unchanged@before(s) && unchanged@before(s.relay) && unchanged@before(s.kernel);
      }
    }

    /** What one ready connection does; a connection that has ended is drained. */
    method Handle(r: Relay) returns (n: int)
      requires r.Valid() && r.InStep(out) && out.Valid() && r.bEnd < MAX_RECORD
      modifies r, r.relay, r.kernel, out
      ensures r.Valid() && r.InStep(out) && out.Valid() && r.bEnd < MAX_RECORD
      ensures r.Served(n, old(r.kernel.handed), old(r.kernel.incoming), old(r.kernel.calls))
      ensures forall c | c != r.conn :: Project(out.tagged, c) == Project(old(out.tagged), c)
    {
      n := r.Receive(out);
      if n <= 0 { r.Finish(out); }
    }
  }

  /**
    When a connection has been read to its end and closed, every record of it is in the file,
    including a last one that was held back because it was exactly a header long.
   */
  lemma ClosedIsComplete(d: Daemon, r: Relay)
    requires d.Valid() && r in d.all - d.active && r.kernel.handed == EncodeAll(r.plan)
    ensures Project(d.out.tagged, r.conn) == Stamped(r.plan, r.shifts) && |r.shifts| == |r.plan|
  {
    var k, held := |r.shifts|, r.relay[..r.bEnd];
    EncodeAllSplit(r.plan, k);
    var head := EncodeAll(r.plan[..k]);
    assert held == (head + held)[|head|..] == EncodeAll(r.plan[k..]);
    if k < |r.plan| { RestIsLong(r.plan, k); }
  }
}
