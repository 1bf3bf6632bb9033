/**
  The write half of the HTTP server's processor (protocol.c): response headers are looked for, and
  bodies of an announced length are passed over.  Its result is an `int`: the processor does not
  keep the contract of the others when a header announces a negative length.
 */
module HttpsWrite {
  import opened Bytes
  import opened Protocols
  import opened ProtocolTheorems
  import opened Processors

  datatype OutState = OutState(done: bool, awaitStatus: bool, toread: int, seqno: int)

  const OutInit := OutState(false, true, 0, 0)

  datatype OutStep =
    | Wait                                                    // -1
    | Used(n: int, next: OutState, events: seq<Event>)

  const HEADER_COPY := 1024
  // "Content-Length: " and "Connection: close"
  const CONTENT_LENGTH: seq<byte> := [67, 111, 110, 116, 101, 110, 116, 45, 76, 101, 110, 103, 116, 104, 58, 32]
  const CLOSE: seq<byte> := [67, 111, 110, 110, 101, 99, 116, 105, 111, 110, 58, 32, 99, 108, 111, 115, 101]

  predicate IsSpace(b: byte) { b == 32 || 9 <= b <= 13 }

  predicate IsDigit(b: byte) { 48 <= b <= 57 }

  function Digits(s: seq<byte>, acc: nat): nat {
    if s == [] then acc
    else
      var c: int := s[0];
      if !IsDigit(c) then acc else Digits(s[1..], 10 * acc + c - 48)
  }

  /** `atoi` */
  function Atoi(s: seq<byte>): int {
    if s == [] then 0
    else if IsSpace(s[0]) then Atoi(s[1..])
    else if s[0] == 45 then 0 - (Digits(s[1..], 0) as int)
    else if s[0] == 43 then Digits(s[1..], 0)
    else Digits(s, 0)
  }

  function LineLength(s: seq<byte>): (n: nat)
    ensures n <= |s|
  {
    if s == [] || s[0] == 13 then 0 else 1 + LineLength(s[1..])
  }

  /** `strtok(NULL, "\r")` */
  function Line(s: seq<byte>): (r: Option<(seq<byte>, seq<byte>)>)
    ensures r.Some? ==> |r.value.1| < |s|
  {
    if s == [] then None
    else if s[0] == 13 then Line(s[1..])
    else
      var n := LineLength(s);
      Some((s[..n], if n < |s| then s[n + 1..] else []))
  }

  datatype Announced = Length(n: int, text: seq<byte>) | Close | Nothing

  /** The text of a line from its 18th character, where the number is expected. */
  function Number(line: seq<byte>): seq<byte> { if |line| >= 17 then line[17..] else [] }

  /** The first header line that says how the body ends. */
  function Scan(s: seq<byte>): Announced
    decreases |s|
  {
    match Line(s)
    case None => Nothing
    case Some((line, rest)) =>
      if Find(line, CONTENT_LENGTH).Some? then Length(Atoi(Number(line)), Number(line))
      else if Find(line, CLOSE).Some? then Close
      else Scan(rest)
  }

  /** The copy of the header that is taken apart. */
  function HeaderCopy(buf: seq<byte>): seq<byte> {
    var text := CString(buf);
    if |text| <= HEADER_COPY then text else text[..HEADER_COPY]
  }

  /** What the header at the front of the buffer announces. */
  function Announces(buf: seq<byte>): Announced {
    var status := NextToken(Token(HeaderCopy(buf)));
    if status.None? then Nothing else Scan(status.value.1)
  }

  function HttpsOutStep(st: OutState, buf: seq<byte>): OutStep {
    if st.done then Used(|buf|, st, [])
    else if st.toread != 0 then
      var consumed := if |buf| > st.toread then st.toread else |buf|;
      Used(consumed, st.(toread := st.toread - consumed, awaitStatus := st.awaitStatus || st.toread == consumed), [])
    else if st.awaitStatus then
      match Find(CString(buf), CRLFCRLF)
      case None => Wait
      case Some(end) =>
        var version := Token(HeaderCopy(buf));
        var what := Announces(buf);
        var events := [Property("VERSION", TokenText(version)), Property("STATUS", TokenText(NextToken(version)))]
                    + (if what.Length? then [Property("CLEN", what.text)] else [])
                    + [MsgSend(Server, st.seqno)];
        Used(end + 4,
             OutState(what.Close?, false, if what.Length? then what.n else 0, st.seqno + 1), events)
    else Used(|buf|, st, [])
  }

  // ------------------------------------------------------------------ the processor as it runs

  ghost predicate DidWrite(step: OutStep, r: int, pre: OutState, post: OutState, before: seq<Event>, after: seq<Event>) {
    match step
    case Wait => r == -1 && post == pre && after == before
    case Used(n, next, events) => r == n && post == next && after == before + events
  }

  class HttpsOut {
    var done: bool
    var awaitStatus: bool
    var toread: int
    var seqno: int

    function State(): OutState
      reads this
    {
      OutState(done, awaitStatus, toread, seqno)
    }

    constructor ()
      ensures State() == OutInit
    {
      done, awaitStatus, toread, seqno := false, true, 0, 0;
    }

    method Write(buf: seq<byte>, log: EventLog) returns (r: int)
      modifies this, log
      ensures DidWrite(HttpsOutStep(old(State()), buf), r, old(State()), State(), old(log.entries), log.entries)
    {
      if done { return |buf|; }
      if toread != 0 {
        var consumed := if |buf| > toread then toread else |buf|;
        toread := toread - consumed;
        if toread == 0 { awaitStatus := true; }
        return consumed;
      }
      if awaitStatus {
        var end := Find(CString(buf), CRLFCRLF);
        if end.None? { return -1; }
        awaitStatus := false;
        var version := Token(HeaderCopy(buf));
        log.Append(Property("VERSION", TokenText(version)));
        var status := NextToken(version);
        log.Append(Property("STATUS", TokenText(status)));
        if status.Some? { ScanLines(status.value.1, log); }
        log.Append(MsgSend(Server, seqno));
        seqno := seqno + 1;
        return end.value + 4;
      }
      return |buf|;
    }

    /** Look through the header lines until one says how the body ends. */
    method ScanLines(text: seq<byte>, log: EventLog)
      modifies this`toread, this`done, log
      ensures match Scan(text)
              case Length(n, number) => toread == n && done == old(done)
                                        && log.entries == old(log.entries) + [Property("CLEN", number)]
              case Close => done && toread == old(toread) && log.entries == old(log.entries)
              case Nothing => toread == old(toread) && done == old(done) && log.entries == old(log.entries)
    {
      var rest := text;
      var line := Line(rest);
      while line.Some?
        invariant line == Line(rest) && Scan(rest) == Scan(text)
        invariant toread == old(toread) && done == old(done) && log.entries == old(log.entries)
        decreases |rest|
      {
        if Find(line.value.0, CONTENT_LENGTH).Some? {
          log.Append(Property("CLEN", Number(line.value.0)));
          toread := Atoi(Number(line.value.0));
          return;
        } else if Find(line.value.0, CLOSE).Some? {
          done := true;
          return;
        }
        rest := line.value.1;
        line := Line(rest);
      }
    }
  }

  // ------------------------------------------------------------------ the contract, and when it fails

  /** "Need more" with nothing changed, or between one byte and all of them used. */
  predicate KeepsContract(step: OutStep, len: nat) {
    step.Used? ==> 0 < step.n <= len
  }

  predicate Bounded(st: OutState) { st.done || st.toread >= 0 }

  /** The contract is kept in a state if and only if no negative length is pending. */
  lemma ContractIffBounded(st: OutState, buf: seq<byte>)
    requires buf != []
    ensures KeepsContract(HttpsOutStep(st, buf), |buf|) <==> Bounded(st)
  {
  }

  /** A call leaves a negative length pending if and only if it takes a header that announces one. */
  lemma BoundedUnlessAnnounced(st: OutState, buf: seq<byte>)
    requires buf != [] && Bounded(st) && HttpsOutStep(st, buf).Used?
    ensures Bounded(HttpsOutStep(st, buf).next) <==>
              !(!st.done && st.toread == 0 && st.awaitStatus && Announces(buf).Length? && Announces(buf).n < 0)
  {
  }

  lemma {:induction false} NoNul(s: seq<byte>)
    requires 0 !in s
    ensures CString(s) == s
  {
    if s != [] { NoNul(s[1..]); }
  }

  /** The search stops at the first occurrence. */
  lemma {:induction false} FindFirst(s: seq<byte>, pat: seq<byte>, i: nat)
    requires i + |pat| <= |s| && s[i..i + |pat|] == pat
    requires forall k | 0 <= k < i :: !(pat <= s[k..])
    ensures Find(s, pat) == Some(i)
  {
    if i == 0 {
      assert pat <= s;
    } else {
      assert s[0..] == s && !(pat <= s);
      forall k | 0 <= k < i - 1 ensures !(pat <= s[1..][k..]) { assert s[1..][k..] == s[k + 1..]; }
      assert s[1..][i - 1..i - 1 + |pat|] == s[i..i + |pat|];
      FindFirst(s[1..], pat, i - 1);
    }
  }

  lemma {:induction false} LineEnds(s: seq<byte>, n: nat)
    requires n < |s| && s[n] == 13 && forall k | 0 <= k < n :: s[k] != 13
    ensures LineLength(s) == n
  {
    if n > 0 { LineEnds(s[1..], n - 1); }
  }

  /** "H 2", then a line "Content-Length: -7". */
  const NEGATIVE: seq<byte> := [72, 32, 50, 13] + NEGATIVE_LINE + CRLFCRLF
  const NEGATIVE_LINE: seq<byte> := [10] + CONTENT_LENGTH + [45, 55]

  lemma NegativeLine()
    ensures Scan(NEGATIVE_LINE + CRLFCRLF) == Length(-7, [45, 55])
  {
    var s := NEGATIVE_LINE + CRLFCRLF;
    LineEnds(s, 19);
    assert s[..19] == NEGATIVE_LINE;
    FindFirst(NEGATIVE_LINE, CONTENT_LENGTH, 1);
    assert Number(NEGATIVE_LINE) == [45, 55];
    assert [45, 55][1..] == [55] && [55][1..] == [];
    assert Digits([55], 0) == 7;
  }

  lemma NegativeTokens()
    ensures Announces(NEGATIVE) == Length(-7, [45, 55])
  {
    var lines := NEGATIVE_LINE + CRLFCRLF;
    Assoc([72, 32, 50, 13], NEGATIVE_LINE, CRLFCRLF);
    ShortStatus([72, 32, 50, 13] + lines, lines);
    NegativeLine();
  }

  /** Behind a version and a status of one byte each the lines are looked through. */
  lemma ShortStatus(s: seq<byte>, lines: seq<byte>)
    requires 4 <= |s| <= HEADER_COPY && 0 !in s && s[4..] == lines
    requires !IsDelimiter(s[0]) && IsDelimiter(s[1]) && !IsDelimiter(s[2]) && IsDelimiter(s[3])
    ensures Announces(s) == Scan(lines)
  {
    NoNul(s);
    OneByteToken(s);
    OneByteToken(s[2..]);
    assert s[2..][2..] == s[4..];
  }

  lemma OneByteToken(s: seq<byte>)
    requires |s| >= 2 && !IsDelimiter(s[0]) && IsDelimiter(s[1])
    ensures Token(s) == Some((s[..1], s[2..]))
  {
    assert s[1..][0] == s[1];
    assert TokenLength(s) == 1;
  }

  /** A response that breaks the contract: it is accepted, and leaves a negative length pending. */
  lemma NegativeLengthAccepted()
    ensures var s := HttpsOutStep(OutInit, NEGATIVE);
            s.Used? && s.n == |NEGATIVE| && s.next.toread == -7 && !Bounded(s.next)
  {
    NoNul(NEGATIVE);
    forall k | 0 <= k < 23 ensures !(CRLFCRLF <= NEGATIVE[k..]) {
      assert NEGATIVE[k..][0] == NEGATIVE[k] && NEGATIVE[k..][2] == NEGATIVE[k + 2];
      assert NEGATIVE[k] != 13 || NEGATIVE[k + 2] != 13;
    }
    FindFirst(NEGATIVE, CRLFCRLF, 23);
    NegativeTokens();
  }

  /** With a negative length pending the processor is not moved forward, whatever it is shown. */
  lemma NegativeLengthGoesBack(st: OutState, buf: seq<byte>)
    requires !Bounded(st)
    ensures HttpsOutStep(st, buf) == Used(st.toread, st.(toread := 0, awaitStatus := true), [])
  {
  }

  /** A processor that waited and is then shown more uses more than it had seen. */
  lemma WaitMeansMore(st: OutState, a: seq<byte>, b: seq<byte>)
    requires a != [] && HttpsOutStep(st, a).Wait?
    ensures HttpsOutStep(st, a + b).Used? ==> HttpsOutStep(st, a + b).n > |a|
  {
    CStringExtends(a, b);
    if |CString(a)| == |a| {
      assert CString(a) == a;
      FindGrows(a, CString(b), CRLFCRLF);
    }
  }

  /** However a body is cut up, exactly the announced number of bytes is passed over before the next header. */
  lemma {:induction false} BodyPassedOver(st: OutState, chunks: seq<seq<byte>>)
    requires !st.done && st.toread > 0 && NoneEmpty(chunks)
    ensures var (left, next) := PassOver(st, chunks);
            && (|Flatten(chunks)| < st.toread ==> left == [] && next == st.(toread := st.toread - |Flatten(chunks)|))
            && (|Flatten(chunks)| >= st.toread ==>
                  left == Flatten(chunks)[st.toread..] && next == st.(toread := 0, awaitStatus := true))
    decreases |chunks|
  {
    if chunks != [] {
      var c := chunks[0];
      assert Flatten(chunks) == c + Flatten(chunks[1..]);
      if |c| < st.toread { BodyPassedOver(st.(toread := st.toread - |c|), chunks[1..]); }
    }
  }

  predicate NoneEmpty(chunks: seq<seq<byte>>) { forall i | 0 <= i < |chunks| :: chunks[i] != [] }

  /** Show the processor a body chunk by chunk; what is left when it looks for a header again. */
  function PassOver(st: OutState, chunks: seq<seq<byte>>): (seq<byte>, OutState)
    requires !st.done && st.toread > 0 && NoneEmpty(chunks)
    decreases |chunks|
  {
    if chunks == [] then ([], st)
    else
      var c := chunks[0];
      var s := HttpsOutStep(st, c);
      if s.next.toread > 0 then PassOver(s.next, chunks[1..])
      else (c[s.n..] + Flatten(chunks[1..]), s.next)
  }
}
