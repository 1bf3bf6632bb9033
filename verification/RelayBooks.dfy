/**
  What the daemon knows about one connection, as a value: the bytes it holds, the time difference,
  and the records it has moved to the file.  `Logd.Relay` keeps its fields in step with these
  functions (logd.c).
 */
module RelayBooks {
  import opened Bytes
  import opened Records

  const RELAY_BUF := 4 * 1024 * 1024

  // ------------------------------------------------------------------ clocks

  datatype Timeval = Timeval(sec: int, usec: int)

  predicate Normal(t: Timeval) { 0 <= t.usec < 1_000_000 }

  predicate IsSet(t: Timeval) { t.sec != 0 || t.usec != 0 }

  /** `timersub` */
  function TimerSub(a: Timeval, b: Timeval): Timeval {
    if a.usec - b.usec < 0 then Timeval(a.sec - b.sec - 1, a.usec - b.usec + 1_000_000)
    else Timeval(a.sec - b.sec, a.usec - b.usec)
  }

  /** `timeradd` */
  function TimerAdd(a: Timeval, b: Timeval): Timeval {
    if a.usec + b.usec >= 1_000_000 then Timeval(a.sec + b.sec + 1, a.usec + b.usec - 1_000_000)
    else Timeval(a.sec + b.sec, a.usec + b.usec)
  }

  function Micros(t: Timeval): int { t.sec * 1_000_000 + t.usec }

  function TimeOf(h: Header): Timeval { Timeval(h.hi, h.lo) }

  /** A record with the time difference applied; the sum is stored in 32 bits. */
  function Stamp(r: Record, diff: Timeval): Record {
    var t := TimerAdd(TimeOf(r.hdr), diff);
    r.(hdr := r.hdr.(hi := t.sec % 0x1_0000_0000, lo := t.usec % 0x1_0000_0000))
  }

  /** Two records that differ at most in their times. */
  predicate SameButTime(a: Record, b: Record) {
    && a.hdr.tid == b.hdr.tid && a.hdr.pid == b.hdr.pid && a.hdr.sc == b.hdr.sc && a.hdr.rv == b.hdr.rv
    && a.hdr.nm == b.hdr.nm && a.hdr.argLen == b.hdr.argLen && a.hdr.strLen == b.hdr.strLen && a.hdr.pad == b.hdr.pad
    && a.args == b.args && a.str == b.str
  }

  /** Stamping changes nothing but the two times. */
  lemma StampKeeps(r: Record, diff: Timeval)
    ensures SameButTime(Stamp(r, diff), r)
  {
  }

  /** The difference of two clocks, and its sum with a time, in microseconds. */
  lemma ClockArithmetic(a: Timeval, b: Timeval)
    ensures Micros(TimerSub(a, b)) == Micros(a) - Micros(b) && Micros(TimerAdd(a, b)) == Micros(a) + Micros(b)
    ensures Normal(a) && Normal(b) ==> Normal(TimerSub(a, b)) && Normal(TimerAdd(a, b))
  {
  }

  /** The record whose difference was taken is given the daemon's own time. */
  lemma FirstStampIsLocalTime(r: Record, local: Timeval)
    requires WfHeader(r.hdr) && Normal(TimeOf(r.hdr)) && Normal(local) && 0 <= local.sec < 0x1_0000_0000
    ensures TimeOf(Stamp(r, TimerSub(local, TimeOf(r.hdr))).hdr) == local
  {
  }

  lemma StampAdds(r: Record, diff: Timeval)
    requires Normal(diff) && Normal(TimeOf(r.hdr)) && 0 <= TimerAdd(TimeOf(r.hdr), diff).sec < 0x1_0000_0000
    ensures Micros(TimeOf(Stamp(r, diff).hdr)) == Micros(TimeOf(r.hdr)) + Micros(diff)
  {
  }

  /** The same difference keeps the distances between a connection's records. */
  lemma StampKeepsDistances(r: Record, s: Record, diff: Timeval)
    requires Normal(diff) && Normal(TimeOf(r.hdr)) && Normal(TimeOf(s.hdr))
    requires 0 <= TimerAdd(TimeOf(r.hdr), diff).sec < 0x1_0000_0000 && 0 <= TimerAdd(TimeOf(s.hdr), diff).sec < 0x1_0000_0000
    ensures Micros(TimeOf(Stamp(s, diff).hdr)) - Micros(TimeOf(Stamp(r, diff).hdr))
         == Micros(TimeOf(s.hdr)) - Micros(TimeOf(r.hdr))
  {
    StampAdds(r, diff);
    StampAdds(s, diff);
  }

  // ------------------------------------------------------------------ the records of one client

  /** The first `n` records of the client, each with the difference it was given. */
  function Stamped(plan: seq<Record>, shifts: seq<Timeval>): (rs: seq<Record>)
    requires |shifts| <= |plan|
    ensures |rs| == |shifts|
    ensures forall i | 0 <= i < |rs| :: rs[i] == Stamp(plan[i], shifts[i])
  {
    seq(|shifts|, i requires 0 <= i < |shifts| => Stamp(plan[i], shifts[i]))
  }

  lemma SplitPrefix(front: seq<byte>, a: seq<byte>, t: seq<byte>)
    requires front <= a + t
    ensures |front| >= |a| ==> front == a + front[|a|..] && front[|a|..] <= t
    ensures forall n | 0 <= n <= |front| :: front[..n] == (a + t)[..n]
  {
    if |front| >= |a| {
      assert front[..|a|] == (a + t)[..|a|] == a;
      assert front[|a|..] == (a + t)[|a|..|front|] == t[..|front| - |a|];
    }
  }

  /** What is at the front of a buffer of records. */
  lemma FrontRecord(front: seq<byte>, rs: seq<Record>)
    requires AllWf(rs) && front <= EncodeAll(rs) && |front| >= HEADER
    ensures rs != [] && Wf(rs[0]) && DecodeHeader(front[..HEADER]) == rs[0].hdr
    ensures |Encode(rs[0])| == FrozenSize(rs[0].hdr)
    ensures |front| >= |Encode(rs[0])| ==>
              && front[HEADER..|Encode(rs[0])|] == EncodeArgs(rs[0].args) + rs[0].str
              && front == Encode(rs[0]) + front[|Encode(rs[0])|..]
              && front[|Encode(rs[0])|..] <= EncodeAll(rs[1..])
  {
    assert rs[0] in rs;
    var tail := EncodeAll(rs[1..]);
    HeaderInFront(rs[0], tail);
    SplitPrefix(front, Encode(rs[0]), tail);
    assert front[..HEADER] == (Encode(rs[0]) + tail)[..HEADER];
    if |front| >= |Encode(rs[0])| {
      HeaderInFront(rs[0], front[|Encode(rs[0])|..]);
    }
  }

  lemma NextRecord(plan: seq<Record>, k: nat, front: seq<byte>)
    requires k < |plan| && |Encode(plan[k])| <= |front| && front == Encode(plan[k]) + front[|Encode(plan[k])|..]
    ensures EncodeAll(plan[..k]) + front == EncodeAll(plan[..k + 1]) + front[|Encode(plan[k])|..]
    ensures plan[k..][1..] == plan[k + 1..]
  {
    EncodeAllAppend(plan[..k], [plan[k]]);
    EncodeOne(plan[k]);
    assert plan[..k] + [plan[k]] == plan[..k + 1];
  }

  lemma RestIsLong(plan: seq<Record>, k: nat)
    requires AllWf(plan) && k < |plan|
    ensures |EncodeAll(plan[k..])| >= |Encode(plan[k])| >= HEADER
  {
    assert plan[k] in plan && plan[k..][0] == plan[k];
  }

  /** What has been read is the first `k` records, whole and in order, then what is held. */
  ghost predicate Relayed(plan: seq<Record>, k: nat, handed: seq<byte>, held: seq<byte>) {
    && k <= |plan| && AllWf(plan)
    && handed == EncodeAll(plan[..k]) + held && held <= EncodeAll(plan[k..])
  }

  /** Bytes that arrive continue the client's encoding. */
  lemma RelayedGrows(plan: seq<Record>, k: nat, handed: seq<byte>, held: seq<byte>, news: seq<byte>)
    requires Relayed(plan, k, handed, held) && handed + news <= EncodeAll(plan)
    ensures Relayed(plan, k, handed + news, held + news)
  {
    EncodeAllSplit(plan, k);
    PrefixAfter(EncodeAll(plan[..k]), held, news, EncodeAll(plan[k..]));
  }

  lemma PrefixAfter(head: seq<byte>, held: seq<byte>, news: seq<byte>, tail: seq<byte>)
    requires (head + held) + news <= head + tail
    ensures (head + held) + news == head + (held + news) && held + news <= tail
  {
    assert (head + held) + news == head + (held + news);
    assert (head + (held + news))[|head|..] == held + news && (head + tail)[|head|..] == tail;
  }

  /** What a held buffer starts with. */
  lemma RelayedFront(plan: seq<Record>, k: nat, handed: seq<byte>, held: seq<byte>)
    requires Relayed(plan, k, handed, held) && |held| >= HEADER
    ensures k < |plan| && Wf(plan[k]) && DecodeHeader(held[..HEADER]) == plan[k].hdr
    ensures |Encode(plan[k])| == FrozenSize(plan[k].hdr)
    ensures |held| >= |Encode(plan[k])| ==>
              && held[HEADER..|Encode(plan[k])|] == EncodeArgs(plan[k].args) + plan[k].str
              && held[..|Encode(plan[k])|] == Encode(plan[k])
              && Relayed(plan, k + 1, handed, held[|Encode(plan[k])|..])
  {
    FrontRecord(held, plan[k..]);
    assert plan[k..][0] == plan[k];
    if |held| >= |Encode(plan[k])| {
      NextRecord(plan, k, held);
    }
  }

  // ------------------------------------------------------------------ the relay, on any bytes

  /** What `gettimeofday` answers, call by call. */
  type Clock = nat -> Timeval

  ghost predicate Right(clock: Clock) { forall t :: Normal(clock(t)) && 0 <= clock(t).sec < 0x1_0000_0000 }

  datatype Wire = Wire(
    held: seq<byte>,         // the buffer, relay[..b_end]
    diff: Timeval,           // timediff
    ticks: nat,              // how often the clock has been read
    moved: seq<Record>,      // the records moved to the file, as they came
    shifts: seq<Timeval>,    // the differences they were given
    crashed: bool)           // a record with lengths that make no sense was taken apart

  /** A connection accepted on a descriptor: a cleared buffer, but the old end of it and the old difference. */
  function Start(staleEnd: nat, staleDiff: Timeval): Wire {
    Wire(seq(staleEnd, i => 0), staleDiff, 0, [], [], false)
  }

  function First(w: Wire): Header
    requires |w.held| >= HEADER
  {
    DecodeHeader(w.held[..HEADER])
  }

  /** `record_timediff`, if there is no difference yet. */
  function Look(w: Wire, clock: Clock): Wire
    requires |w.held| >= HEADER
  {
    if IsSet(w.diff) then w
    else w.(diff := TimerSub(clock(w.ticks), TimeOf(First(w))), ticks := w.ticks + 1)
  }

  /** The whole record is here: a negative size is enormous to the unsigned comparison. */
  predicate Whole(w: Wire)
    requires |w.held| >= HEADER
  {
    0 <= FrozenSize(First(w)) <= |w.held|
  }

  /** Lengths that fit the entry a record is thawed into. */
  predicate Sensible(h: Header) { 0 <= h.argLen <= 3 && 0 <= h.strLen }

  function FirstRecord(w: Wire): Record
    requires |w.held| >= HEADER && Whole(w) && Sensible(First(w))
  {
    var h := First(w);
    var body := w.held[HEADER..FrozenSize(h)];
    Record(h, DecodeArgs(body, h.argLen), body[4 * h.argLen..])
  }

  function MoveFirst(w: Wire): Wire
    requires |w.held| >= HEADER && Whole(w) && Sensible(First(w))
  {
    w.(held := w.held[FrozenSize(First(w))..], moved := w.moved + [FirstRecord(w)], shifts := w.shifts + [w.diff])
  }

  /** `transfer_out`, whatever the buffer holds. */
  function MoveAll(w: Wire, clock: Clock): Wire
    decreases |w.held|
  {
    if w.crashed || |w.held| < HEADER then w
    else
      var l := Look(w, clock);
      if !Whole(l) then l
      else if !Sensible(First(l)) then l.(crashed := true)
      else MoveAll(MoveFirst(l), clock)
  }

  /** `transfer_in`, when it reads `chunk`. */
  function Feed(w: Wire, chunk: seq<byte>, clock: Clock): Wire {
    var g := w.(held := w.held + chunk);
    if |g.held| > HEADER then MoveAll(g, clock) else g
  }

  function FeedAll(w: Wire, chunks: seq<seq<byte>>, clock: Clock): Wire
    decreases |chunks|
  {
    if chunks == [] then w else FeedAll(Feed(w, chunks[0], clock), chunks[1..], clock)
  }

  /** The connection's part of the file. */
  function Output(w: Wire): seq<Record> {
    if |w.shifts| == |w.moved| then Stamped(w.moved, w.shifts) else []
  }

  // ------------------------------------------------------------------ the relay, on a client's records

  /** No record before the `n`th was given a difference, nor was one there to begin with. */
  ghost predicate Unset(start: Timeval, shifts: seq<Timeval>, n: int) {
    !IsSet(start) && forall j | 0 <= j < n && j < |shifts| :: !IsSet(shifts[j])
  }

  /** The difference between the daemon's clock, at some time it was read, and the record's time. */
  ghost predicate Taken(r: Record, clock: Clock, diff: Timeval) {
    exists t: nat :: diff == TimerSub(clock(t), TimeOf(r.hdr))
  }

  /**
    The differences: each is taken from the daemon's clock and the record itself, until one is not
    zero, or one was there from the start; that one is given to all the rest.
   */
  ghost predicate Given(plan: seq<Record>, start: Timeval, clock: Clock, shifts: seq<Timeval>) {
    && |shifts| <= |plan|
    && (forall i | 0 <= i < |shifts| && Unset(start, shifts, i) :: Taken(plan[i], clock, shifts[i]))
    && (forall i, j | 0 <= i < j < |shifts| :: IsSet(shifts[i]) ==> shifts[j] == shifts[i])
    && (IsSet(start) ==> forall i | 0 <= i < |shifts| :: shifts[i] == start)
  }

  /** Those, and the one kept for the next record. */
  ghost predicate Timed(plan: seq<Record>, start: Timeval, clock: Clock, shifts: seq<Timeval>, diff: Timeval) {
    && Given(plan, start, clock, shifts)
    && (forall i | 0 <= i < |shifts| :: IsSet(shifts[i]) ==> diff == shifts[i])
    && (IsSet(start) ==> diff == start)
    && (Unset(start, shifts, |shifts|) && IsSet(diff) ==> |shifts| < |plan| && Taken(plan[|shifts|], clock, diff))
  }

  /** The connection is where a client that logs `plan` should have it after `handed` has been read. */
  ghost predicate Follows(plan: seq<Record>, start: Timeval, clock: Clock, handed: seq<byte>, w: Wire) {
    && !w.crashed && |w.moved| == |w.shifts|
    && Relayed(plan, |w.moved|, handed, w.held) && w.moved == plan[..|w.moved|]
    && Timed(plan, start, clock, w.shifts, w.diff)
  }

  /** Nothing more can be moved. */
  ghost predicate Settled(plan: seq<Record>, w: Wire) {
    |w.held| < HEADER || (|w.moved| < |plan| && |w.held| < |Encode(plan[|w.moved|])|)
  }

  lemma StartFollows(plan: seq<Record>, start: Timeval, clock: Clock)
    requires AllWf(plan)
    ensures Follows(plan, start, clock, [], Start(0, start))
  {
    assert EncodeAll(plan[..0]) == [];
  }

  /** The header in front is the next record's. */
  lemma LookFollows(plan: seq<Record>, start: Timeval, clock: Clock, handed: seq<byte>, w: Wire)
    requires Follows(plan, start, clock, handed, w) && |w.held| >= HEADER
    ensures var l, k := Look(w, clock), |w.moved|;
            && Follows(plan, start, clock, handed, l) && l.held == w.held && l.moved == w.moved
            && k < |plan| && Wf(plan[k]) && First(w) == plan[k].hdr && Sensible(First(w))
            && FrozenSize(First(w)) == |Encode(plan[k])|
            && (Unset(start, l.shifts, k) ==> Taken(plan[k], clock, l.diff))
  {
    var k := |w.moved|;
    RelayedFront(plan, k, handed, w.held);
    LookTimed(plan, start, clock, w.shifts, w.diff, w.ticks);
  }

  lemma LookTimed(plan: seq<Record>, start: Timeval, clock: Clock, shifts: seq<Timeval>, diff: Timeval, t: nat)
    requires Timed(plan, start, clock, shifts, diff) && |shifts| < |plan|
    ensures var next := if IsSet(diff) then diff else TimerSub(clock(t), TimeOf(plan[|shifts|].hdr));
            && Timed(plan, start, clock, shifts, next)
            && (Unset(start, shifts, |shifts|) ==> Taken(plan[|shifts|], clock, next))
  {
  }

  /** A whole record in front is the next record of the client. */
  lemma MoveFollows(plan: seq<Record>, start: Timeval, clock: Clock, handed: seq<byte>, l: Wire)
    requires Follows(plan, start, clock, handed, l) && |l.held| >= HEADER && Whole(l) && Sensible(First(l))
    requires |l.moved| < |plan| && (Unset(start, l.shifts, |l.shifts|) ==> Taken(plan[|l.moved|], clock, l.diff))
    ensures FirstRecord(l) == plan[|l.moved|] && Follows(plan, start, clock, handed, MoveFirst(l))
  {
    var k, m := |l.moved|, MoveFirst(l);
    MoveRelayed(plan, k, handed, l);
    NextInPlan(plan, k);
    MoveTimed(plan, start, clock, l.shifts, l.diff);
    assert |m.moved| == k + 1 && m.moved == plan[..k + 1] && m.shifts == l.shifts + [l.diff];
  }

  lemma NextInPlan(plan: seq<Record>, k: nat)
    requires k < |plan|
    ensures plan[..k] + [plan[k]] == plan[..k + 1]
  {
  }

  lemma MoveRelayed(plan: seq<Record>, k: nat, handed: seq<byte>, l: Wire)
    requires Relayed(plan, k, handed, l.held) && |l.held| >= HEADER && Whole(l) && Sensible(First(l)) && k < |plan|
    ensures FirstRecord(l) == plan[k] && Relayed(plan, k + 1, handed, MoveFirst(l).held)
  {
    RelayedFront(plan, k, handed, l.held);
    FirstIs(l, plan[k]);
  }

  lemma FirstIs(l: Wire, rec: Record)
    requires |l.held| >= HEADER && Whole(l) && Sensible(First(l)) && Wf(rec) && First(l) == rec.hdr
    requires l.held[HEADER..FrozenSize(First(l))] == EncodeArgs(rec.args) + rec.str
    ensures FirstRecord(l) == rec
  {
    ArgsRoundTrip(rec.args, rec.str);
    var body := EncodeArgs(rec.args) + rec.str;
    assert body[4 * rec.hdr.argLen..] == rec.str;
  }

  lemma MoveTimed(plan: seq<Record>, start: Timeval, clock: Clock, shifts: seq<Timeval>, diff: Timeval)
    requires Timed(plan, start, clock, shifts, diff) && |shifts| < |plan|
    requires Unset(start, shifts, |shifts|) ==> Taken(plan[|shifts|], clock, diff)
    ensures Timed(plan, start, clock, shifts + [diff], diff)
  {
    var more := shifts + [diff];
    forall i | 0 <= i < |more| && Unset(start, more, i) ensures Taken(plan[i], clock, more[i]) {
      assert forall j | 0 <= j < i && j < |shifts| :: more[j] == shifts[j];
      assert Unset(start, shifts, i);
    }
    assert more[|shifts|] == diff;
  }

  /** `transfer_out` on a client's records moves them, one after the other, until the first one is not all here. */
  lemma {:induction false} MoveAllFollows(plan: seq<Record>, start: Timeval, clock: Clock, handed: seq<byte>, w: Wire)
    requires Follows(plan, start, clock, handed, w)
    ensures Follows(plan, start, clock, handed, MoveAll(w, clock)) && Settled(plan, MoveAll(w, clock))
    ensures |MoveAll(w, clock).held| <= |w.held| && |w.moved| <= |MoveAll(w, clock).moved|
    decreases |w.held|
  {
    if |w.held| >= HEADER {
      LookFollows(plan, start, clock, handed, w);
      var l := Look(w, clock);
      if Whole(l) {
        MoveFollows(plan, start, clock, handed, l);
        MoveAllFollows(plan, start, clock, handed, MoveFirst(l));
      }
    }
  }

  lemma GrowFollows(plan: seq<Record>, start: Timeval, clock: Clock, handed: seq<byte>, w: Wire, chunk: seq<byte>)
    requires Follows(plan, start, clock, handed, w) && handed + chunk <= EncodeAll(plan)
    ensures Follows(plan, start, clock, handed + chunk, w.(held := w.held + chunk))
  {
    RelayedGrows(plan, |w.moved|, handed, w.held, chunk);
  }

  /** And so does `transfer_in`; only a last record of nothing but a header can be held back whole. */
  lemma FeedFollows(plan: seq<Record>, start: Timeval, clock: Clock, handed: seq<byte>, w: Wire, chunk: seq<byte>)
    requires Follows(plan, start, clock, handed, w) && handed + chunk <= EncodeAll(plan)
    ensures var f := Feed(w, chunk, clock);
            && Follows(plan, start, clock, handed + chunk, f)
            && (Settled(plan, f) || (|f.held| == HEADER && |f.moved| < |plan| && f.held == Encode(plan[|f.moved|])))
  {
    GrowFollows(plan, start, clock, handed, w, chunk);
    var g := w.(held := w.held + chunk);
    if |g.held| > HEADER {
      MoveAllFollows(plan, start, clock, handed + chunk, g);
    } else if |g.held| == HEADER {
      HeldBack(plan, |g.moved|, handed + chunk, g.held);
    }
  }

  /** The strict test: with exactly a header in the buffer nothing is moved, whatever it says. */
  lemma HeaderAloneWaits(w: Wire, chunk: seq<byte>, clock: Clock)
    requires |w.held| + |chunk| <= 32
    ensures Feed(w, chunk, clock) == w.(held := w.held + chunk)
  {
  }

  lemma HeldBack(plan: seq<Record>, k: nat, handed: seq<byte>, held: seq<byte>)
    requires Relayed(plan, k, handed, held) && |held| == HEADER
    ensures k < |plan| && (|Encode(plan[k])| > HEADER || held == Encode(plan[k]))
  {
    RelayedFront(plan, k, handed, held);
    assert held[..HEADER] == held;
    assert plan[k] in plan;
  }

  /** Everything delivered and nothing left to move: all of it has been moved. */
  lemma DeliveredIsMoved(plan: seq<Record>, start: Timeval, clock: Clock, w: Wire)
    requires Follows(plan, start, clock, EncodeAll(plan), w) && Settled(plan, w)
    ensures w.moved == plan
  {
    var k := |w.moved|;
    EncodeAllSplit(plan, k);
    var head := EncodeAll(plan[..k]);
    assert w.held == (head + w.held)[|head|..] == EncodeAll(plan[k..]);
    if k < |plan| { RestIsLong(plan, k); }
  }

  // ------------------------------------------------------------------ what the times in the file mean

  /** Of clocks that show normalised times the differences are normalised. */
  lemma {:induction false} NormalShift(plan: seq<Record>, start: Timeval, clock: Clock, shifts: seq<Timeval>, i: nat)
    requires Given(plan, start, clock, shifts) && Right(clock) && Normal(start) && i < |shifts|
    requires forall k | 0 <= k <= i :: Normal(TimeOf(plan[k].hdr))
    ensures Normal(shifts[i])
    decreases i
  {
    if !IsSet(start) && !Unset(start, shifts, i) {
      var j :| 0 <= j < i && IsSet(shifts[j]);
      NormalShift(plan, start, clock, shifts, j);
    }
  }

  /** Until there is a difference, every record is given the time the daemon's clock showed when it was looked at. */
  lemma DaemonsOwnTime(plan: seq<Record>, start: Timeval, clock: Clock, shifts: seq<Timeval>, i: nat)
    requires Given(plan, start, clock, shifts) && Right(clock) && i < |shifts| && Unset(start, shifts, i)
    requires WfHeader(plan[i].hdr) && Normal(TimeOf(plan[i].hdr))
    ensures exists t: nat :: TimeOf(Stamped(plan, shifts)[i].hdr) == clock(t)
  {
    var t: nat :| shifts[i] == TimerSub(clock(t), TimeOf(plan[i].hdr));
    FirstStampIsLocalTime(plan[i], clock(t));
  }

  /** From the first difference on, the file keeps the distances between the client's records. */
  lemma DistancesKept(plan: seq<Record>, start: Timeval, clock: Clock, shifts: seq<Timeval>, i: nat, j: nat)
    requires Given(plan, start, clock, shifts) && Right(clock) && Normal(start) && i <= j < |shifts|
    requires IsSet(start) || IsSet(shifts[i])
    requires forall k | 0 <= k <= j :: Normal(TimeOf(plan[k].hdr))
    requires forall k | k in {i, j} :: 0 <= TimerAdd(TimeOf(plan[k].hdr), shifts[i]).sec < 0x1_0000_0000
    ensures Micros(TimeOf(Stamped(plan, shifts)[j].hdr)) - Micros(TimeOf(Stamped(plan, shifts)[i].hdr))
         == Micros(TimeOf(plan[j].hdr)) - Micros(TimeOf(plan[i].hdr))
  {
    NormalShift(plan, start, clock, shifts, i);
    assert shifts[j] == shifts[i];
    StampKeepsDistances(plan[i], plan[j], shifts[i]);
  }

  /** Less than one record of the largest size stays behind. */
  lemma HeldIsSmall(plan: seq<Record>, w: Wire)
    requires AllWf(plan) && (Settled(plan, w) || |w.held| == HEADER)
    ensures |w.held| < MAX_RECORD
  {
    if |w.held| > HEADER {
      assert plan[|w.moved|] in plan;
    }
  }
}
