/** From a LOGBIN call in a traced program to an entry in the analyser: the four stages composed. */
module Pipeline {
  import opened Bytes
  import opened Records
  import opened LogBuffer
  import opened RelayBooks
  import opened Logd
  import opened Daemons

  /** The entries read from the file that belong to one connection. */
  function EntriesFrom(ts: seq<Tagged>, entries: seq<Entry>, conn: int): seq<Entry>
    requires |ts| == |entries|
  {
    if ts == [] then []
    else (if ts[0].conn == conn then [entries[0]] else []) + EntriesFrom(ts[1..], entries[1..], conn)
  }

  /** `entries` is what reading the whole file gives. */
  predicate ReadFrom(entries: seq<Entry>, ts: seq<Tagged>) {
    |entries| == |ts| && forall i | 0 <= i < |ts| :: Wf(ts[i].rec) && entries[i] == Thawed(ts[i].rec)
  }

  lemma {:induction false} ReadingKeepsProjections(entries: seq<Entry>, ts: seq<Tagged>, conn: int)
    requires ReadFrom(entries, ts)
    ensures |EntriesFrom(ts, entries, conn)| == |Project(ts, conn)|
    ensures forall i | 0 <= i < |Project(ts, conn)| ::
              Wf(Project(ts, conn)[i]) && EntriesFrom(ts, entries, conn)[i] == Thawed(Project(ts, conn)[i])
  {
    if ts != [] {
      ReadingKeepsProjections(entries[1..], ts[1..], conn);
    }
  }

  /** What `Reader.ReadAll` returns for the daemon's file. */
  lemma {:induction false} FileIsTagged(ts: seq<Tagged>, entries: seq<Entry>)
    requires AllWf(Recs(ts)) && |entries| == |Recs(ts)|
    requires forall i | 0 <= i < |Recs(ts)| :: Wf(Recs(ts)[i]) && entries[i] == Thawed(Recs(ts)[i])
    ensures ReadFrom(entries, ts)
  {
    RecsAt(ts);
    forall i | 0 <= i < |ts| ensures Wf(ts[i].rec) && entries[i] == Thawed(ts[i].rec) {
      assert Recs(ts)[i] == ts[i].rec;
    }
  }

  lemma {:induction false} RecsAt(ts: seq<Tagged>)
    ensures |Recs(ts)| == |ts| && forall i | 0 <= i < |ts| :: Recs(ts)[i] == ts[i].rec
  {
    if ts != [] { RecsAt(ts[1..]); }
  }

  /**
    Safety, at every moment: whatever the flush points, short writes, network chunking and
    interleaving with other connections, the records of this client in the file are the first ones
    it logged, in order, each with its time difference and otherwise unchanged; and each difference
    is one between the daemon's clock and a record's time, the same for all from the first that is
    not zero.
   */
  lemma NothingInventedOrReordered(w: ThreadContext, d: Daemon, r: Relay)
    requires w.Valid() && d.Valid() && r in d.all && r.kernel.handed <= w.sock.sent
    ensures var k := |r.shifts|;
            && k <= |w.logged|
            && Project(d.out.tagged, r.conn) == Stamped(w.logged, r.shifts)
            && Given(w.logged, r.start, r.clock, r.shifts)
    ensures var file := Project(d.out.tagged, r.conn);
            |file| <= |w.logged| && forall i | 0 <= i < |file| :: SameButTime(file[i], w.logged[i])
  {
    forall i | 0 <= i < |r.shifts| && i < |w.logged| ensures SameButTime(Stamp(w.logged[i], r.shifts[i]), w.logged[i]) {
      StampKeeps(w.logged[i], r.shifts[i]);
    }
    var k, held := |r.shifts|, r.relay[..r.bEnd];
    assert EncodeAll(r.plan[..k]) + held <= EncodeAll(w.logged);
    UniqueParse(r.plan[..k], held, w.logged);
    assert r.moved == r.plan[..k];
    forall i | 0 <= i < k ensures r.plan[i] == w.logged[i] { assert r.plan[..k][i] == w.logged[i]; }
    assert Stamped(w.logged, r.shifts) == Stamped(r.moved, r.shifts);
  }

  /**
    Times in the file: a client whose descriptor had no difference has its first record at the time
    the daemon's clock showed; and from the first difference on, two records are as far apart in the
    file as they were for the client.
   */
  lemma TimesInTheFile(w: ThreadContext, d: Daemon, r: Relay, i: nat, j: nat)
    requires w.Valid() && d.Valid() && r in d.all && r.kernel.handed <= w.sock.sent && Normal(r.start)
    requires i <= j < |r.shifts| <= |w.logged| && forall k | 0 <= k <= j :: Normal(TimeOf(w.logged[k].hdr))
    requires forall k | k in {i, j} :: 0 <= TimerAdd(TimeOf(w.logged[k].hdr), r.shifts[i]).sec < 0x1_0000_0000
    ensures var file := Project(d.out.tagged, r.conn);
            && |file| == |r.shifts|
            && (!IsSet(r.start) ==> exists t: nat :: TimeOf(file[0].hdr) == r.clock(t))
            && (IsSet(r.start) || IsSet(r.shifts[i]) ==>
                  Micros(TimeOf(file[j].hdr)) - Micros(TimeOf(file[i].hdr))
                  == Micros(TimeOf(w.logged[j].hdr)) - Micros(TimeOf(w.logged[i].hdr)))
  {
    NothingInventedOrReordered(w, d, r);
    if IsSet(r.start) || IsSet(r.shifts[i]) { DistancesKept(w.logged, r.start, r.clock, r.shifts, i, j); }
    if !IsSet(r.start) {
      assert w.logged[0] in w.logged;
      DaemonsOwnTime(w.logged, r.start, r.clock, r.shifts, 0);
    }
  }

  /** Completeness: flushed, delivered and closed, every record the client logged is in the file. */
  lemma NothingLost(w: ThreadContext, d: Daemon, r: Relay)
    requires w.Valid() && d.Valid() && r in d.all - d.active
    requires w.lbptr == 0 && r.kernel.handed == w.sock.sent
    ensures |r.shifts| == |w.logged|
  {
    NothingInventedOrReordered(w, d, r);
    var k, held := |r.shifts|, r.relay[..r.bEnd];
    var head := EncodeAll(r.plan[..k]);
    assert w.lb[..0] == [];
    assert head + held == EncodeAll(w.logged);
    UniqueParse(r.plan[..k], held, w.logged);
    assert r.plan[..k] == w.logged[..k];
    HeldIsRest(w.logged, k, held);
    if k < |w.logged| {
      RestIsLong(w.logged, k);
      SameNextHeader(held, w.logged[k..], r.plan[k..]);
    }
  }

  lemma HeldIsRest(rs: seq<Record>, k: nat, held: seq<byte>)
    requires k <= |rs| && EncodeAll(rs[..k]) + held == EncodeAll(rs)
    ensures held == EncodeAll(rs[k..])
  {
    EncodeAllSplit(rs, k);
    CancelFront(EncodeAll(rs[..k]), held, EncodeAll(rs[k..]));
  }

  /** Two streams that share a header share the size of their first record. */
  lemma SameNextHeader(held: seq<byte>, a: seq<Record>, b: seq<Record>)
    requires AllWf(a) && AllWf(b) && |held| >= HEADER && held <= EncodeAll(a) && held <= EncodeAll(b)
    ensures a != [] && b != [] && |Encode(a[0])| == |Encode(b[0])|
  {
    FrontRecord(held, a);
    FrontRecord(held, b);
  }

  /** The entry says what the record says, all but the time: missing arguments are zero. */
  predicate Decoded(e: Entry, r: Record) {
    && e.fz.tid == r.hdr.tid && e.fz.pid == r.hdr.pid && e.fz.sc == r.hdr.sc && e.fz.rv == r.hdr.rv && e.fz.nm == r.hdr.nm
    && e.fz.argLen == |r.args| && e.fz.strLen == |r.str| && e.str == r.str
    && |e.arg| == 3 && forall j | 0 <= j < 3 :: e.arg[j] == if j < |r.args| then r.args[j] else 0
  }

  lemma StampedThawed(r: Record, diff: Timeval)
    requires Wf(Stamp(r, diff))
    ensures Decoded(Thawed(Stamp(r, diff)), r)
  {
    StampKeeps(r, diff);
  }

  /**
    End to end: of the entries the analyser reads from the daemon's file, those of this client are
    its logged records, thawed, with the time difference of each; all of them, once everything has
    been flushed, delivered and closed.
   */
  lemma EndToEnd(w: ThreadContext, d: Daemon, r: Relay, entries: seq<Entry>)
    requires w.Valid() && d.Valid() && r in d.all && r.kernel.handed <= w.sock.sent
    requires |entries| == |Recs(d.out.tagged)|
    requires forall i | 0 <= i < |entries| :: Wf(Recs(d.out.tagged)[i]) && entries[i] == Thawed(Recs(d.out.tagged)[i])
    ensures |d.out.tagged| == |entries|
    ensures var mine := EntriesFrom(d.out.tagged, entries, r.conn);
            && |mine| == |r.shifts| <= |w.logged| && Given(w.logged, r.start, r.clock, r.shifts)
            && (forall i | 0 <= i < |mine| ::
                  Wf(Stamp(w.logged[i], r.shifts[i])) && mine[i] == Thawed(Stamp(w.logged[i], r.shifts[i])))
            && (forall i | 0 <= i < |mine| :: Decoded(mine[i], w.logged[i]))
            && (w.lbptr == 0 && r.kernel.handed == w.sock.sent && r !in d.active ==> |mine| == |w.logged|)
  {
    forall r, diff | Wf(Stamp(r, diff)) ensures Decoded(Thawed(Stamp(r, diff)), r) { StampedThawed(r, diff); }
    var ts := d.out.tagged;
    FileIsTagged(ts, entries);
    ReadingKeepsProjections(entries, ts, r.conn);
    NothingInventedOrReordered(w, d, r);
    if w.lbptr == 0 && r.kernel.handed == w.sock.sent && r !in d.active {
      NothingLost(w, d, r);
    }
  }
}
