/** What the processors promise the virtual read and write code, and that chunking does not matter to them. */
module ProtocolTheorems {
  import opened Bytes
  import opened Protocols

  // ------------------------------------------------------------------ the dispatch contract

  /** A search that fails in `a` and succeeds in `a + b` ends beyond `a`. */
  lemma {:induction false} FindGrows(a: seq<byte>, b: seq<byte>, pat: seq<byte>)
    requires Find(a, pat).None? && pat != []
    ensures match Find(a + b, pat) case None => true case Some(i) => i + |pat| > |a|
  {
    if pat <= a + b {
    } else if a != [] {
      assert (a + b)[1..] == a[1..] + b;
      FindGrows(a[1..], b, pat);
    }
  }

  /** The search finds the first occurrence, and fails only when there is none. */
  lemma {:induction false} FindExact(s: seq<byte>, pat: seq<byte>)
    ensures match Find(s, pat)
            case Some(i) => pat <= s[i..] && forall k | 0 <= k < i :: !(pat <= s[k..])
            case None => forall k | 0 <= k <= |s| :: !(pat <= s[k..])
  {
    assert s[0..] == s;
    if s != [] && !(pat <= s) {
      var rest := s[1..];
      FindExact(rest, pat);
      var end := match Find(rest, pat) case Some(i) => i case None => |rest| + 1;
      forall k | 0 <= k < end + 1 && k <= |s| ensures !(pat <= s[k..]) {
        if k > 0 { assert s[k..] == rest[k - 1..]; }
      }
      if end <= |rest| { assert s[end + 1..] == rest[end..]; }
    }
  }

  lemma {:induction false} CStringExtends(a: seq<byte>, b: seq<byte>)
    ensures CString(a + b) == if |CString(a)| < |a| then CString(a) else a + CString(b)
  {
    if a == [] {
      assert a + b == b;
    } else if a[0] != 0 {
      assert (a + b)[1..] == a[1..] + b;
      CStringExtends(a[1..], b);
    }
  }

  /**
    The fact behind `assert(v->tosend)`: a processor that asked for more when it was shown `a`, and
    accepts when it is shown `a + b` in the same state, uses more than the bytes of `a`.
   */
  lemma MoreMeansMore(st: PState, a: seq<byte>, b: seq<byte>)
    requires Reachable(st) && a != [] && PPStep(st, a) == More
    ensures match PPStep(st, a + b) case Took(n, _, _) => n > |a| case _ => true
  {
    match st
    case Https(s) => HttpsMoreMeansMore(s, a, b);
    case Psql(role, dir, s) => PsqlMoreMeansMore(s, role, dir, a, b);
    case _ =>
  }

  lemma HttpsMoreMeansMore(st: HttpsState, a: seq<byte>, b: seq<byte>)
    requires HttpsStep(st, a) == More
    ensures match HttpsStep(st, a + b) case Took(n, _, _) => n > |a| case _ => true
  {
    HttpsLooksFor(st, a);
    HttpsLooksFor(st, a + b);
    CStringExtends(a, b);
    if |CString(a)| == |a| {
      assert CString(a) == a;
      FindGrows(a, CString(b), CRLFCRLF);
    }
  }

  /** A call uses everything, or ends where the search for the terminator does. */
  lemma HttpsLooksFor(st: HttpsState, buf: seq<byte>)
    ensures match HttpsStep(st, buf)
            case More => !st.done && Find(CString(buf), CRLFCRLF).None?
            case Took(n, _, _) =>
              if st.done then n == |buf|
              else Find(CString(buf), CRLFCRLF).Some? && n == Find(CString(buf), CRLFCRLF).value + 4
            case Died => true
  {
  }

  lemma PsqlMoreMeansMore(st: PsqlState, role: Role, dir: Direction, a: seq<byte>, b: seq<byte>)
    requires PsqlStep(st, role, dir, a) == More
    ensures match PsqlStep(st, role, dir, a + b) case Took(n, _, _) => n > |a| case _ => true
  {
  }

  // ------------------------------------------------------------------ one call on a longer buffer

  /** A streaming processor that asked for more also asks for more when it is shown less. */
  lemma MoreOnPrefix(st: PState, a: seq<byte>, b: seq<byte>)
    requires Reachable(st) && Streaming(st) && a != [] && PPStep(st, a + b) == More
    ensures PPStep(st, a) == More
  {
    assert (a + b)[0] == a[0];
  }

  /** What a streaming processor uses is all it looked at. */
  lemma StepExact(st: PState, buf: seq<byte>)
    requires Reachable(st) && Streaming(st) && buf != [] && PPStep(st, buf).Took?
    ensures PPStep(st, buf[..PPStep(st, buf).n]) == PPStep(st, buf)
  {
    var n := PPStep(st, buf).n;
    var cut, rest := buf[..n], buf[n..];
    assert buf == cut + rest;
    match st
    case Psql(role, dir, s) => PsqlExact(s, role, dir, cut, rest);
    case Mysql(role, dir, s) => if s.todo == 0 { MysqlExtends(s, role, dir, cut, rest); }
    case Xc(s) => XExact(s, cut, rest);
  }

  lemma PsqlExact(s: PsqlState, role: Role, dir: Direction, cut: seq<byte>, rest: seq<byte>)
    requires PsqlStep(s, role, dir, cut + rest).Took? && PsqlStep(s, role, dir, cut + rest).n == |cut|
    ensures PsqlStep(s, role, dir, cut) == PsqlStep(s, role, dir, cut + rest)
  {
    if s.todo <= |cut| || s.mtype == CHAR_Q { PsqlExtends(s, role, dir, cut, rest); }
  }

  lemma XExact(s: XState, cut: seq<byte>, rest: seq<byte>)
    requires cut != [] && XStep(s, cut + rest).Took? && XStep(s, cut + rest).n == |cut|
    ensures XStep(s, cut) == XStep(s, cut + rest)
  {
    assert (cut + rest)[0] == cut[0];
    XExtends(s, cut, rest);
  }

  /** The processor used all of `a` as part of a body whose end it has not seen. */
  predicate InBody(st: PState, a: seq<byte>)
    requires Reachable(st) && a != []
  {
    match st
    case Psql(_, _, s) => s.todo > |a| && s.mtype != CHAR_Q
    case Mysql(_, _, s) => s.todo > |a|
    case _ => false
  }

  /** Outside a body, what a streaming processor does with `a` it also does with any extension of `a`. */
  lemma StepExtends(st: PState, a: seq<byte>, b: seq<byte>)
    requires Reachable(st) && Streaming(st) && a != [] && !InBody(st, a)
    requires PPStep(st, a) != More
    ensures PPStep(st, a + b) == PPStep(st, a)
  {
    match st
    case Psql(role, dir, s) => PsqlExtends(s, role, dir, a, b);
    case Mysql(role, dir, s) => MysqlExtends(s, role, dir, a, b);
    case Xc(s) => XExtends(s, a, b);
  }

  lemma PsqlExtends(s: PsqlState, role: Role, dir: Direction, a: seq<byte>, b: seq<byte>)
    requires PsqlStep(s, role, dir, a) != More && (s.todo <= |a| || s.mtype == CHAR_Q)
    ensures PsqlStep(s, role, dir, a + b) == PsqlStep(s, role, dir, a)
  {
    if s.todo > 0 {
      if s.mtype == CHAR_Q { SliceOfFront(a, b, 0, s.todo); }
    } else if !s.gotStartup {
      SliceOfFront(a, b, 0, 4);
    } else {
      assert (a + b)[0] == a[0];
      SliceOfFront(a, b, 1, 5);
    }
  }

  lemma MysqlExtends(s: MysqlState, role: Role, dir: Direction, a: seq<byte>, b: seq<byte>)
    requires MysqlStep(s, role, dir, a) != More && s.todo <= |a|
    ensures MysqlStep(s, role, dir, a + b) == MysqlStep(s, role, dir, a)
  {
    if s.todo == 0 {
      assert (a + b)[3] == a[3];
      SliceOfFront(a, b, 0, 3);
    }
  }

  lemma XExtends(s: XState, a: seq<byte>, b: seq<byte>)
    requires a != [] && XStep(s, a) != More
    ensures XStep(s, a + b) == XStep(s, a)
  {
    assert (a + b)[0] == a[0];
    if !s.success && |a| >= 8 { SliceOfFront(a, b, 6, 8); }
  }

  /** Inside a body, one call on `a + b` does what a call on `a` and a call on `b` do. */
  lemma BodySplits(st: PState, a: seq<byte>, b: seq<byte>)
    requires Reachable(st) && Streaming(st) && a != [] && InBody(st, a)
    ensures PPStep(st, a).Took? && PPStep(st, a).n == |a| && PPStep(st, a).events == []
    ensures Drain(st, a + b) == Drain(PPStep(st, a).next, b)
  {
    var mid := PPStep(st, a).next;
    if b == [] {
      assert a + b == a;
      assert a[|a|..] == [];
    } else {
      var whole, second := PPStep(st, a + b), PPStep(mid, b);
      assert second.Took? && whole == Took(|a| + second.n, second.next, []);
      assert (a + b)[whole.n..] == b[second.n..];
    }
  }

  // ------------------------------------------------------------------ chunk invariance

  lemma PrependTwice(e: seq<Event>, f: seq<Event>, d: Drained)
    ensures Prepend(e, Prepend(f, d)) == Prepend(e + f, d)
  {
    assert e + (f + d.events) == (e + f) + d.events;
  }

  /** Resuming commutes with the events already made. */
  lemma ResumePrepend(events: seq<Event>, d: Drained, more: seq<byte>)
    requires Reachable(d.next)
    ensures Resume(Prepend(events, d), more) == Prepend(events, Resume(d, more))
  {
    if d.alive {
      PrependTwice(events, d.events, Drain(d.next, d.rest + more));
    }
  }

  lemma DrainTook(st: PState, buf: seq<byte>, n: nat, next: PState, events: seq<Event>)
    requires Reachable(st) && buf != [] && PPStep(st, buf) == Took(n, next, events)
    ensures Drain(st, buf) == Prepend(events, Drain(next, buf[n..]))
  {
  }

  /** Running a streaming processor over `a + b` is running it over `a` and resuming with `b`. */
  lemma {:induction false} ChunkInvariance(st: PState, a: seq<byte>, b: seq<byte>)
    requires Reachable(st) && Streaming(st)
    ensures Drain(st, a + b) == Resume(Drain(st, a), b)
    decreases |a|, 1
  {
    if a == [] {
      assert a + b == b;
      PrependNothing(Drain(st, b));
    } else if InBody(st, a) {
      BodySplits(st, a, b);
      var next := PPStep(st, a).next;
      assert a[|a|..] == [] && [] + b == b;
      DrainTook(st, a, |a|, next, []);
      PrependNothing(Drain(next, b));
    } else {
      match PPStep(st, a)
      case More => PrependNothing(Drain(st, a + b));
      case Died => StepExtends(st, a, b);
      case Took(n, next, events) => ChunkInvarianceStep(st, a, b, n, next, events);
    }
  }

  lemma PrependNothing(d: Drained)
    ensures Prepend([], d) == d
  {
    assert [] + d.events == d.events;
  }

  lemma {:induction false} ChunkInvarianceStep(st: PState, a: seq<byte>, b: seq<byte>, n: nat, next: PState, events: seq<Event>)
    requires Reachable(st) && Streaming(st) && a != [] && !InBody(st, a)
    requires PPStep(st, a) == Took(n, next, events)
    ensures Drain(st, a + b) == Resume(Drain(st, a), b)
    decreases |a|, 0
  {
    StepExtends(st, a, b);
    StreamingStep(st, a);
    assert (a + b)[n..] == a[n..] + b;
    DrainTook(st, a + b, n, next, events);
    DrainTook(st, a, n, next, events);
    ChunkInvariance(next, a[n..], b);
    ResumePrepend(events, Drain(next, a[n..]), b);
  }

  /** The PostgreSQL and MySQL processors never stop the process, whatever they are shown. */
  lemma {:induction false} NeverDies(st: PState, buf: seq<byte>)
    requires Hardy(st)
    ensures buf != [] ==> !PPStep(st, buf).Died?
    ensures Drain(st, buf).alive && Hardy(Drain(st, buf).next)
    decreases |buf|
  {
    if buf != [] {
      match PPStep(st, buf)
      case More =>
      case Took(n, next, events) =>
        DrainTook(st, buf, n, next, events);
        NeverDies(next, buf[n..]);
    }
  }

  lemma StreamingStep(st: PState, buf: seq<byte>)
    requires Reachable(st) && Streaming(st) && buf != [] && PPStep(st, buf).Took?
    ensures Streaming(PPStep(st, buf).next)
  {
  }

  function DrainAll(d: Drained, chunks: seq<seq<byte>>): Drained
    requires Reachable(d.next)
    decreases |chunks|
  {
    if chunks == [] then d else DrainAll(Resume(d, chunks[0]), chunks[1..])
  }

  lemma DrainAllStep(d: Drained, chunks: seq<seq<byte>>)
    requires Reachable(d.next) && chunks != []
    ensures DrainAll(d, chunks) == DrainAll(Resume(d, chunks[0]), chunks[1..])
  {
  }

  /** Any two ways of cutting the same bytes leave the same state, leftover and events. */
  lemma {:induction false} ChunkingDoesNotMatter(st: PState, xs: seq<seq<byte>>, ys: seq<seq<byte>>)
    requires Reachable(st) && Streaming(st) && Flatten(xs) == Flatten(ys)
    ensures DrainAll(Drain(st, []), xs) == DrainAll(Drain(st, []), ys)
  {
    DrainAllIsDrain(st, [], xs);
    DrainAllIsDrain(st, [], ys);
  }

  lemma {:induction false} DrainAllIsDrain(st: PState, seen: seq<byte>, chunks: seq<seq<byte>>)
    requires Reachable(st) && Streaming(st)
    ensures DrainAll(Drain(st, seen), chunks) == Drain(st, seen + Flatten(chunks))
    decreases |chunks|
  {
    if chunks == [] {
      assert seen + [] == seen;
    } else {
      DrainAllStep(Drain(st, seen), chunks);
      ChunkInvariance(st, seen, chunks[0]);
      DrainAllIsDrain(st, seen + chunks[0], chunks[1..]);
      FlattenFirst(seen, chunks);
    }
  }

  lemma FlattenFirst(seen: seq<byte>, chunks: seq<seq<byte>>)
    requires chunks != []
    ensures seen + chunks[0] + Flatten(chunks[1..]) == seen + Flatten(chunks)
  {
  }

  /** The events on the bytes so far are never retracted or reordered by later bytes. */
  lemma EventsMonotone(st: PState, a: seq<byte>, b: seq<byte>)
    requires Reachable(st) && Streaming(st) && a <= b
    ensures Drain(st, a).events <= Drain(st, b).events
  {
    ChunkInvariance(st, a, b[|a|..]);
    assert a + b[|a|..] == b;
  }

  /** A call that uses `n` bytes in the state reached on `seen` brings the run to `seen` and those bytes. */
  lemma DrainOneStep(st: PState, seen: seq<byte>, buf: seq<byte>)
    requires Reachable(st) && Streaming(st) && buf != []
    requires Drain(st, seen).alive && Drain(st, seen).rest == []
    requires PPStep(Drain(st, seen).next, buf).Took?
    ensures var d, s := Drain(st, seen), PPStep(Drain(st, seen).next, buf);
            Drain(st, seen + buf[..s.n]) == Drained(true, s.next, [], d.events + s.events)
  {
    var d := Drain(st, seen);
    var s := PPStep(d.next, buf);
    var used := buf[..s.n];
    StreamingKept(st, seen);
    StepExact(d.next, buf);
    DrainTook(d.next, used, s.n, s.next, s.events);
    assert used[s.n..] == [];
    ChunkInvariance(st, seen, used);
    assert d.rest + used == used;
    PrependTwice(d.events, s.events, Drain(s.next, []));
  }

  lemma StreamingKept(st: PState, buf: seq<byte>)
    requires Reachable(st) && Streaming(st)
    ensures Streaming(Drain(st, buf).next)
    decreases |buf|
  {
    if buf != [] {
      match PPStep(st, buf)
      case Took(n, next, _) => StreamingKept(next, buf[n..]);
      case _ =>
    }
  }

  /** Bytes held back behind a "more" make no event, however few of them are looked at. */
  lemma HeldBytesAreSilent(st: PState, seen: seq<byte>, held: seq<byte>, part: seq<byte>)
    requires Reachable(st) && Streaming(st)
    requires Drain(st, seen).alive && Drain(st, seen).rest == []
    requires held != [] && PPStep(Drain(st, seen).next, held) == More
    requires part <= held
    ensures Drain(st, seen + part).events == Drain(st, seen).events
  {
    var d := Drain(st, seen);
    StreamingKept(st, seen);
    ChunkInvariance(st, seen, part);
    assert d.rest + part == part;
    if part != [] {
      assert part + held[|part|..] == held;
      MoreOnPrefix(d.next, part, held[|part|..]);
    }
  }
}
