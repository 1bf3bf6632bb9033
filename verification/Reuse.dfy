/** What a connection on a used descriptor makes of what the last one left there (logd.c). */
module Reuse {
  import opened Bytes
  import opened Records
  import opened RelayBooks

  /** Everything read, and the transfer at the disconnect. */
  function Ended(w: Wire, chunks: seq<seq<byte>>, clock: Clock): Wire { MoveAll(FeedAll(w, chunks, clock), clock) }

  // ------------------------------------------------------------------ the first record written

  /** Nothing has been moved and all of `all` is held, or the first record moved has the header at the front of `all`. */
  ghost predicate FirstFrom(w: Wire, all: seq<byte>) {
    && |w.moved| == |w.shifts|
    && if w.moved == [] then w.held == all else |all| >= HEADER && w.moved[0].hdr == DecodeHeader(all[..HEADER])
  }

  lemma {:induction false} MoveAllFirst(w: Wire, all: seq<byte>, clock: Clock)
    requires FirstFrom(w, all)
    ensures FirstFrom(MoveAll(w, clock), all)
    decreases |w.held|
  {
    if !w.crashed && |w.held| >= HEADER {
      var l := Look(w, clock);
      if Whole(l) && Sensible(First(l)) {
        MoveAllFirst(MoveFirst(l), all, clock);
      }
    }
  }

  lemma FeedFirst(w: Wire, all: seq<byte>, chunk: seq<byte>, clock: Clock)
    requires FirstFrom(w, all)
    ensures FirstFrom(Feed(w, chunk, clock), all + chunk)
  {
    var g := w.(held := w.held + chunk);
    if |all| >= HEADER { assert (all + chunk)[..HEADER] == all[..HEADER]; }
    if |g.held| > HEADER { MoveAllFirst(g, all + chunk, clock); }
  }

  lemma {:induction false} FeedAllFirst(w: Wire, all: seq<byte>, chunks: seq<seq<byte>>, clock: Clock)
    requires FirstFrom(w, all)
    ensures FirstFrom(FeedAll(w, chunks, clock), all + Flatten(chunks))
    decreases |chunks|
  {
    if chunks == [] {
      assert all + [] == all;
    } else {
      FeedFirst(w, all, chunks[0], clock);
      FeedAllFirst(Feed(w, chunks[0], clock), all + chunks[0], chunks[1..], clock);
      Assoc(all, chunks[0], Flatten(chunks[1..]));
    }
  }

  // ------------------------------------------------------------------ shifted thread ids

  predicate Zero(s: seq<byte>) { forall i | 0 <= i < |s| :: s[i] == 0 }

  lemma {:induction false} ZeroIsZero(s: seq<byte>)
    requires Zero(s)
    ensures FromLittleEndian(s) == 0
  {
    if s != [] { ZeroIsZero(s[1..]); }
  }

  /** The bytes read the same behind `z` zeros. */
  predicate Shifted(s: seq<byte>, z: nat) {
    (forall i | 0 <= i < z && i < |s| :: s[i] == 0) && (forall i | z <= i < |s| :: s[i] == s[i - z])
  }

  /** Such bytes are zeros. */
  lemma {:induction false} ShiftedIsZero(s: seq<byte>, z: nat, n: nat)
    requires 0 < z && n <= |s| && Shifted(s, z)
    ensures forall i | 0 <= i < n :: s[i] == 0
  {
    if n > 0 {
      ShiftedIsZero(s, z, n - 1);
      assert n - 1 >= z ==> s[n - 1 - z] == 0;
    }
  }

  /** Behind left-over bytes no thread id but 0 reads as itself. */
  lemma ThreadIdGarbled(stale: seq<byte>, r: Record, tail: seq<byte>, front: seq<byte>)
    requires stale != [] && Zero(stale) && Wf(r) && r.hdr.tid != 0
    requires |front| == HEADER && front <= stale + (Encode(r) + tail)
    ensures DecodeHeader(front).tid != r.hdr.tid
  {
    var id := Encode(r)[..8];
    Pow256Values();
    assert id == LittleEndian(r.hdr.tid, 8);
    if FromLittleEndian(front[0..8]) == r.hdr.tid {
      LittleEndianOfBytes(front[0..8]);
      assert id == front[0..8];
      assert forall i | 0 <= i < 8 :: front[i] == (stale + (Encode(r) + tail))[i];
      LittleEndianRoundTrip(r.hdr.tid, 8);
      ShiftedIsZero(id, |stale|, 8);
      ZeroIsZero(id);
    }
  }

  // ------------------------------------------------------------------ a used descriptor

  /** The connection's part of the file is the client's records, each with some difference. */
  ghost predicate Faithful(output: seq<Record>, plan: seq<Record>) {
    exists shifts: seq<Timeval> :: |shifts| == |plan| && output == Stamped(plan, shifts)
  }

  /** With anything left over the client's records never come out, however much of them is delivered. */
  lemma LeftOverGarbles(plan: seq<Record>, chunks: seq<seq<byte>>, clock: Clock, staleEnd: nat, staleDiff: Timeval)
    requires AllWf(plan) && plan != [] && plan[0].hdr.tid != 0 && Flatten(chunks) <= EncodeAll(plan) && staleEnd > 0
    ensures !Faithful(Output(Ended(Start(staleEnd, staleDiff), chunks, clock)), plan)
  {
    var s := Start(staleEnd, staleDiff);
    var w, all := Ended(s, chunks, clock), s.held + Flatten(chunks);
    FeedAllFirst(s, s.held, chunks, clock);
    MoveAllFirst(FeedAll(s, chunks, clock), all, clock);
    if Output(w) != [] && |Output(w)| == |plan| {
      var rest := EncodeAll(plan)[|Flatten(chunks)|..];
      assert plan[0] in plan && EncodeAll(plan) == Encode(plan[0]) + EncodeAll(plan[1..]);
      assert all[..HEADER] <= s.held + EncodeAll(plan);
      ThreadIdGarbled(s.held, plan[0], EncodeAll(plan[1..]), all[..HEADER]);
      forall shifts: seq<Timeval> | |shifts| == |plan| ensures Output(w) != Stamped(plan, shifts) {
        assert Output(w)[0].hdr.tid == w.moved[0].hdr.tid;
        assert Stamped(plan, shifts)[0].hdr.tid == plan[0].hdr.tid;
      }
    }
  }

  lemma {:induction false} FeedAllFollows(plan: seq<Record>, start: Timeval, clock: Clock, handed: seq<byte>, w: Wire, chunks: seq<seq<byte>>)
    requires Follows(plan, start, clock, handed, w) && handed + Flatten(chunks) <= EncodeAll(plan)
    ensures Follows(plan, start, clock, handed + Flatten(chunks), FeedAll(w, chunks, clock))
    decreases |chunks|
  {
    if chunks == [] {
      assert handed + [] == handed;
    } else {
      Assoc(handed, chunks[0], Flatten(chunks[1..]));
      assert handed + chunks[0] <= EncodeAll(plan);
      FeedFollows(plan, start, clock, handed, w, chunks[0]);
      FeedAllFollows(plan, start, clock, handed + chunks[0], Feed(w, chunks[0], clock), chunks[1..]);
    }
  }

  /** On a descriptor with nothing left over a connection ends as it should. */
  lemma EndedFollows(plan: seq<Record>, chunks: seq<seq<byte>>, clock: Clock, staleDiff: Timeval)
    requires AllWf(plan) && Flatten(chunks) <= EncodeAll(plan)
    ensures var w := Ended(Start(0, staleDiff), chunks, clock);
            Follows(plan, staleDiff, clock, Flatten(chunks), w) && Settled(plan, w)
  {
    StartFollows(plan, staleDiff, clock);
    assert [] + Flatten(chunks) == Flatten(chunks);
    FeedAllFollows(plan, staleDiff, clock, [], Start(0, staleDiff), chunks);
    MoveAllFollows(plan, staleDiff, clock, Flatten(chunks), FeedAll(Start(0, staleDiff), chunks, clock));
  }

  /**
    A delivered stream is relayed faithfully, whatever the chunking and the clock, if and only if the
    last connection on the descriptor left nothing behind.
   */
  lemma FaithfulIffNothingLeft(plan: seq<Record>, chunks: seq<seq<byte>>, clock: Clock, staleEnd: nat, staleDiff: Timeval)
    requires AllWf(plan) && plan != [] && plan[0].hdr.tid != 0 && Flatten(chunks) == EncodeAll(plan)
    ensures Faithful(Output(Ended(Start(staleEnd, staleDiff), chunks, clock)), plan) <==> staleEnd == 0
  {
    if staleEnd > 0 {
      LeftOverGarbles(plan, chunks, clock, staleEnd, staleDiff);
    } else {
      EndedFollows(plan, chunks, clock, staleDiff);
      var w := Ended(Start(0, staleDiff), chunks, clock);
      DeliveredIsMoved(plan, staleDiff, clock, w);
      assert Output(w) == Stamped(plan, w.shifts);
    }
  }

  /** A client that stops in the middle of a record leaves what it sent of it, and the next client on the descriptor is lost. */
  lemma PartialRecordSpoilsTheNext(r: Record, n: nat, first: seq<seq<byte>>, diff: Timeval, clock: Clock,
                                   plan: seq<Record>, chunks: seq<seq<byte>>, clock': Clock)
    requires Wf(r) && 0 < n < |Encode(r)| && Flatten(first) == Encode(r)[..n]
    requires AllWf(plan) && plan != [] && plan[0].hdr.tid != 0 && Flatten(chunks) == EncodeAll(plan)
    ensures var w := Ended(Start(0, diff), first, clock);
            && w.held == Encode(r)[..n] && w.moved == []
            && !Faithful(Output(Ended(Start(|w.held|, w.diff), chunks, clock')), plan)
  {
    EncodeOne(r);
    EndedFollows([r], first, clock, diff);
    var w := Ended(Start(0, diff), first, clock);
    assert [r][..1] == [r] && [r][..0] == [] && EncodeAll([]) == [];
    FaithfulIffNothingLeft(plan, chunks, clock', |w.held|, w.diff);
  }

  // ------------------------------------------------------------------ a used clock difference

  /** The first record in the file has a time the daemon's clock showed. */
  ghost predicate OwnTime(plan: seq<Record>, chunks: seq<seq<byte>>, clock: Clock, staleDiff: Timeval) {
    var out := Output(Ended(Start(0, staleDiff), chunks, clock));
    out != [] && exists t: nat :: TimeOf(out[0].hdr) == clock(t)
  }

  lemma OwnTimeWhenUnset(plan: seq<Record>, chunks: seq<seq<byte>>, clock: Clock, staleDiff: Timeval)
    requires AllWf(plan) && plan != [] && Flatten(chunks) == EncodeAll(plan) && Normal(TimeOf(plan[0].hdr))
    requires Right(clock) && !IsSet(staleDiff)
    ensures OwnTime(plan, chunks, clock, staleDiff)
  {
    EndedFollows(plan, chunks, clock, staleDiff);
    var w := Ended(Start(0, staleDiff), chunks, clock);
    DeliveredIsMoved(plan, staleDiff, clock, w);
    assert plan[0] in plan;
    DaemonsOwnTime(plan, staleDiff, clock, w.shifts, 0);
  }

  /** A difference left on a descriptor is given to every record of the next client. */
  lemma OldDifference(plan: seq<Record>, chunks: seq<seq<byte>>, clock: Clock, staleDiff: Timeval)
    requires AllWf(plan) && Flatten(chunks) == EncodeAll(plan) && IsSet(staleDiff)
    ensures Output(Ended(Start(0, staleDiff), chunks, clock)) == Stamped(plan, seq(|plan|, i => staleDiff))
  {
    EndedFollows(plan, chunks, clock, staleDiff);
    var w := Ended(Start(0, staleDiff), chunks, clock);
    DeliveredIsMoved(plan, staleDiff, clock, w);
  }

  /** A clock that always shows another time than the first record would be given. */
  lemma NotOwnTimeWhenSet(plan: seq<Record>, chunks: seq<seq<byte>>, staleDiff: Timeval) returns (clock: Clock)
    requires AllWf(plan) && plan != [] && Flatten(chunks) == EncodeAll(plan) && IsSet(staleDiff)
    ensures Right(clock) && !OwnTime(plan, chunks, clock, staleDiff)
  {
    var never := if TimeOf(Stamp(plan[0], staleDiff).hdr) == Timeval(0, 0) then Timeval(1, 0) else Timeval(0, 0);
    clock := t => never;
    OldDifference(plan, chunks, clock, staleDiff);
  }

  /**
    The first record of a client gets the daemon's own time, whatever the daemon's clock shows, if
    and only if the last connection on the descriptor left no difference.
   */
  lemma DaemonsTimeIffUnset(plan: seq<Record>, chunks: seq<seq<byte>>, staleDiff: Timeval)
    requires AllWf(plan) && plan != [] && Flatten(chunks) == EncodeAll(plan) && Normal(TimeOf(plan[0].hdr))
    ensures (forall clock | Right(clock) :: OwnTime(plan, chunks, clock, staleDiff)) <==> !IsSet(staleDiff)
  {
    if IsSet(staleDiff) {
      var clock := NotOwnTimeWhenSet(plan, chunks, staleDiff);
    } else {
      forall clock | Right(clock) ensures OwnTime(plan, chunks, clock, staleDiff) {
        OwnTimeWhenUnset(plan, chunks, clock, staleDiff);
      }
    }
  }
}
