/** What the HTTP server's processor makes of requests and responses, byte by byte (RFC 2616, sections 4.1, 5 and 6). */
module HttpFraming {
  import opened Bytes
  import opened Protocols
  import opened ProtocolTheorems
  import opened HttpsWrite

  /** A word: not empty, and without blanks, line ends and NULs. */
  predicate Word(s: seq<byte>) { s != [] && forall i | 0 <= i < |s| :: s[i] !in {0, 10, 13, 32} }

  lemma {:induction false} TokenLengthIs(w: seq<byte>, rest: seq<byte>)
    requires (forall i | 0 <= i < |w| :: w[i] !in {0, 10, 13, 32}) && rest != [] && (rest[0] == 32 || rest[0] == 13)
    ensures TokenLength(w + rest) == |w|
  {
    if w == [] {
      assert w + rest == rest;
    } else {
      assert (w + rest)[1..] == w[1..] + rest;
      TokenLengthIs(w[1..], rest);
    }
  }

  /** A word in front of a blank or a carriage return is the next token. */
  lemma TokenIs(w: seq<byte>, delimiter: byte, rest: seq<byte>)
    requires Word(w) && (delimiter == 32 || delimiter == 13)
    ensures Token(w + ([delimiter] + rest)) == Some((w, rest))
  {
    var s := w + ([delimiter] + rest);
    TokenLengthIs(w, [delimiter] + rest);
    assert s[..|w|] == w && s[|w| + 1..] == rest;
  }

  /** A search skips bytes that are not the first of what is looked for. */
  lemma {:induction false} FindSkips(front: seq<byte>, rest: seq<byte>, pat: seq<byte>)
    requires pat != [] && forall i | 0 <= i < |front| :: front[i] != pat[0]
    ensures Find(front + rest, pat) == match Find(rest, pat) case Some(p) => Some(|front| + p) case None => None
  {
    if front == [] {
      assert front + rest == rest;
    } else {
      assert (front + rest)[1..] == front[1..] + rest;
      NotHere(front + rest, pat);
      FindSkips(front[1..], rest, pat);
    }
  }

  lemma NotHere(s: seq<byte>, pat: seq<byte>)
    requires s != [] && pat != [] && s[0] != pat[0]
    ensures Find(s, pat) == match Find(s[1..], pat) case Some(p) => Some(p + 1) case None => None
  {
    assert !(pat <= s);
  }

  lemma TextBehind(front: seq<byte>, rest: seq<byte>)
    requires 0 !in front
    ensures CString(front + rest) == front + CString(rest)
  {
    NoNul(front);
    CStringExtends(front, rest);
  }

  // ------------------------------------------------------------------ requests

  /** "HTTP/1.0" or "HTTP/1.1". */
  function Version(minor: byte): seq<byte> { [72, 84, 84, 80, 47, 49, 46, minor] }

  function RequestLine(verb: seq<byte>, url: seq<byte>, minor: byte): seq<byte> {
    verb + ([32] + (url + ([32] + Version(minor))))
  }

  lemma VersionSearch(minor: byte)
    ensures Find(Version(minor), HTTP_1_0).Some? <==> minor == 48
    ensures Find(Version(minor), HTTP_1_1).Some? <==> minor == 49
  {
    var v := Version(minor);
    FindExact(v, HTTP_1_0);
    FindExact(v, HTTP_1_1);
    assert v[0..] == v && HTTP_1_0[7] == 48 && HTTP_1_1[7] == 49;
    if minor == 48 { assert HTTP_1_0 <= v[0..]; }
    if minor == 49 { assert HTTP_1_1 <= v[0..]; }
  }

  lemma RequestTokens(verb: seq<byte>, url: seq<byte>, minor: byte, rest: seq<byte>)
    requires Word(verb) && Word(url) && minor in {48, 49}
    ensures var text := RequestLine(verb, url, minor) + ([13] + rest);
            var t1 := Token(text);
            var t2 := NextToken(t1);
            TokenText(t1) == verb && TokenText(t2) == url && NextToken(t2) == Some((Version(minor), rest))
  {
    var tail := [13] + rest;
    var v := Version(minor);
    Assoc(verb, [32] + (url + ([32] + v)), tail);
    Assoc([32], url + ([32] + v), tail);
    Assoc(url, [32] + v, tail);
    Assoc([32], v, tail);
    TokenIs(verb, 32, url + ([32] + (v + tail)));
    TokenIs(url, 32, v + tail);
    TokenIs(v, 13, rest);
  }

  /**
    A request that has arrived with its whole header: the message is logged with the next number and
    its method, URL and version; exactly the header is used.  With version 1.0 everything that
    follows is passed through; with 1.1 another header is expected.
   */
  lemma RequestRead(st: HttpsState, verb: seq<byte>, url: seq<byte>, minor: byte, rest: seq<byte>, p: nat)
    requires !st.done && st.awaitHeader && Word(verb) && Word(url) && minor in {48, 49}
    requires Find(CString([13] + rest), CRLFCRLF) == Some(p)
    ensures var line := RequestLine(verb, url, minor);
            var buf := line + ([13] + rest);
            var s := HttpsStep(st, buf);
            && s.Took? && s.n == |line| + p + 4
            && s.next == HttpsState(minor == 48, minor == 49, minor - 48, st.seqno + 1)
            && s.events == [MsgRecv(Server, st.seqno), HttpsRead(|buf|), Property("METHOD", verb), Property("URL", url),
                            Property("VERSION", Version(minor))]
  {
    var line, tail := RequestLine(verb, url, minor), [13] + rest;
    LineIsClean(verb, url, minor);
    var tail' := CString(tail);
    TextBehind(line, tail);
    FindSkips(line, tail', CRLFCRLF);
    var after := CString(rest);
    TextBehind([13], rest);
    RequestTokens(verb, url, minor, after);
    VersionSearch(minor);
    var text := line + tail';
    HeaderOfTokens(st.seqno, |line + tail|, text, |line| + p, verb, url, Version(minor), minor == 48, after);
  }

  lemma HeaderOfTokens(seqno: int, len: nat, text: seq<byte>, end: nat, verb: seq<byte>, url: seq<byte>,
                       version: seq<byte>, last: bool, after: seq<byte>)
    requires TokenText(Token(text)) == verb && TokenText(NextToken(Token(text))) == url
    requires NextToken(NextToken(Token(text))) == Some((version, after))
    requires (Find(version, HTTP_1_0).Some? <==> last) && (Find(version, HTTP_1_1).Some? <==> !last)
    ensures var s := HttpsHeader(seqno, len, text, end);
            && s.Took? && s.n == end + 4
            && s.next == HttpsState(last, !last, if last then 0 else 1, seqno + 1)
            && s.events == HttpsEvents(seqno, len, verb, url, version)
  {
  }

  lemma LineIsClean(verb: seq<byte>, url: seq<byte>, minor: byte)
    requires Word(verb) && Word(url) && minor in {48, 49}
    ensures var line := RequestLine(verb, url, minor); 0 !in line && forall i | 0 <= i < |line| :: line[i] != 13
  {
    var line := RequestLine(verb, url, minor);
    forall i | 0 <= i < |line| ensures line[i] != 13 && line[i] != 0 {
      if i < |verb| {
        assert line[i] == verb[i];
      } else if |verb| < i <= |verb| + |url| {
        assert line[i] == url[i - |verb| - 1];
      }
    }
  }

  /** Once a 1.0 request has been read, everything is passed through. */
  lemma AfterOldRequest(st: HttpsState, buf: seq<byte>)
    requires st.done
    ensures HttpsStep(st, buf) == Took(|buf|, st, [])
  {
  }

  /** A fresh processor waits for its first header, in both directions. */
  lemma FreshProcessor()
    ensures !HttpsInit.done && HttpsInit.awaitHeader && HttpsInit.seqno == 0
    ensures !OutInit.done && OutInit.awaitStatus && OutInit.toread == 0 && OutInit.seqno == 0
  {
  }

  // ------------------------------------------------------------------ responses

  /** Decimal digits, most significant first. */
  function Decimal(n: nat): (d: seq<byte>)
    ensures d != [] && forall i | 0 <= i < |d| :: 48 <= d[i] <= 57
  {
    if n < 10 then [48 + n] else Decimal(n / 10) + [48 + n % 10]
  }

  lemma {:induction false} DigitsAppend(s: seq<byte>, c: byte, acc: nat)
    requires forall i | 0 <= i < |s| :: 48 <= s[i] <= 57
    requires 48 <= c <= 57
    ensures Digits(s + [c], acc) == 10 * Digits(s, acc) + c - 48
  {
    if s == [] {
      assert s + [c] == [c] && [c][1..] == [];
    } else {
      assert (s + [c])[1..] == s[1..] + [c];
      var d: int := s[0];
      DigitsAppend(s[1..], c, 10 * acc + d - 48);
    }
  }

  /** A number that is written down is read back. */
  lemma {:induction false} DecimalRoundTrip(n: nat)
    ensures Digits(Decimal(n), 0) == n && Atoi(Decimal(n)) == n
  {
    if n < 10 {
      assert Decimal(n)[1..] == [];
    } else {
      DecimalRoundTrip(n / 10);
      DigitsAppend(Decimal(n / 10), 48 + n % 10, 0);
    }
    assert 48 <= Decimal(n)[0] <= 57;
  }

  /** A line of a header, without its carriage return, is looked through before the rest. */
  lemma LineIs(line: seq<byte>, rest: seq<byte>)
    requires line != [] && forall i | 0 <= i < |line| :: line[i] != 13
    ensures Line(line + ([13] + rest)) == Some((line, rest))
  {
    var s := line + ([13] + rest);
    LineEnds(s, |line|);
    assert s[..|line|] == line && s[|line| + 1..] == rest;
  }

  lemma ShortLineSaysNothing(line: seq<byte>)
    requires |line| < 16
    ensures Find(line, CONTENT_LENGTH).None? && Find(line, CLOSE).None?
  {
    FindExact(line, CONTENT_LENGTH);
    FindExact(line, CLOSE);
  }

  function LengthLine(n: nat): seq<byte> { [10] + CONTENT_LENGTH + Decimal(n) }

  lemma LengthLineFound(n: nat, rest: seq<byte>)
    ensures Scan(LengthLine(n) + ([13] + rest)) == Length(n, Decimal(n))
  {
    var line := LengthLine(n);
    LineIs(line, rest);
    FindExact(line, CONTENT_LENGTH);
    assert line[1..][..16] == CONTENT_LENGTH;
    assert CONTENT_LENGTH <= line[1..];
    assert line[17..] == Decimal(n);
    DecimalRoundTrip(n);
  }

  /** A line that announces that the connection closes: everything that follows is passed through. */
  lemma CloseLineFound(rest: seq<byte>)
    ensures Scan(CloseLine() + ([13] + rest)) == Close
  {
    var line := CloseLine();
    LineIs(line, rest);
    FindExact(line, CLOSE);
    assert line[1..] == CLOSE;
    assert line[3] == 110 && line[4] == 110 && line[5] == 101 && CONTENT_LENGTH[3] == 116;
    NotIn(line, CONTENT_LENGTH);
  }

  /** A pattern two shorter than the line, whose fourth byte is nowhere it would have to be. */
  lemma NotIn(line: seq<byte>, pat: seq<byte>)
    requires |line| == |pat| + 2 && |pat| > 3 && line[3] != pat[3] && line[4] != pat[3] && line[5] != pat[3]
    ensures Find(line, pat).None?
  {
    forall k | 0 <= k <= |line| ensures !(pat <= line[k..]) {
      if k <= 2 { assert line[k..][3] == line[k + 3]; }
    }
    FindExact(line, pat);
  }

  function CloseLine(): seq<byte> { [10] + CLOSE }

  /** Version, status, reason and the first line behind them, as far as the copy of the header must reach. */
  function ResponseFront(version: seq<byte>, status: seq<byte>, reason: seq<byte>, line: seq<byte>): seq<byte> {
    version + ([32] + (status + ([32] + (reason + ([13] + (line + [13]))))))
  }

  lemma Announced(version: seq<byte>, status: seq<byte>, reason: seq<byte>, line: seq<byte>, rest: seq<byte>)
    requires Word(version) && Word(status) && Word(reason) && |reason| < 16
    ensures var text := ResponseFront(version, status, reason, line) + rest;
            var t := NextToken(Token(text));
            TokenText(Token(text)) == version && TokenText(t) == status && t.Some? && Scan(t.value.1) == Scan(line + ([13] + rest))
  {
    var lines := reason + ([13] + (line + [13]));
    Assoc(version, [32] + (status + ([32] + lines)), rest);
    Assoc([32], status + ([32] + lines), rest);
    Assoc(status, [32] + lines, rest);
    Assoc([32], lines, rest);
    TokenIs(version, 32, status + ([32] + (lines + rest)));
    TokenIs(status, 32, lines + rest);
    Assoc(reason, [13] + (line + [13]), rest);
    Assoc([13], line + [13], rest);
    Assoc(line, [13], rest);
    LineIs(reason, line + ([13] + rest));
    ShortLineSaysNothing(reason);
  }

  /**
    A response whose header has arrived, with its length announced in the first line behind the
    status: the header is used, the message is logged, and exactly the announced number of bytes
    is passed over next.
   */
  lemma ResponseWritten(st: OutState, version: seq<byte>, status: seq<byte>, reason: seq<byte>, n: nat, rest: seq<byte>, end: nat)
    requires !st.done && st.toread == 0 && st.awaitStatus
    requires Word(version) && Word(status) && Word(reason) && |reason| < 16
    requires Short(ResponseFront(version, status, reason, LengthLine(n)))
    requires Find(CString(ResponseFront(version, status, reason, LengthLine(n)) + rest), CRLFCRLF) == Some(end)
    ensures HttpsOutStep(st, ResponseFront(version, status, reason, LengthLine(n)) + rest) ==
            Used(end + 4, OutState(false, false, n, st.seqno + 1),
                 [Property("VERSION", version), Property("STATUS", status), Property("CLEN", Decimal(n)), MsgSend(Server, st.seqno)])
  {
    forall r ensures Scan(LengthLine(n) + ([13] + r)) == Length(n, Decimal(n)) { LengthLineFound(n, r); }
    HeaderWritten(st, version, status, reason, LengthLine(n), Length(n, Decimal(n)), rest, end);
    AnswersLength(st, end, version, status, n, Decimal(n));
  }

  /** A response that closes the connection: after its header everything is passed through, for good. */
  lemma ResponseCloses(st: OutState, version: seq<byte>, status: seq<byte>, reason: seq<byte>, rest: seq<byte>, end: nat, more: seq<byte>)
    requires !st.done && st.toread == 0 && st.awaitStatus
    requires Word(version) && Word(status) && Word(reason) && |reason| < 16
    requires Short(ResponseFront(version, status, reason, CloseLine()))
    requires Find(CString(ResponseFront(version, status, reason, CloseLine()) + rest), CRLFCRLF) == Some(end)
    ensures var closed := OutState(true, false, 0, st.seqno + 1);
            && HttpsOutStep(st, ResponseFront(version, status, reason, CloseLine()) + rest) ==
               Used(end + 4, closed, [Property("VERSION", version), Property("STATUS", status), MsgSend(Server, st.seqno)])
            && HttpsOutStep(closed, more) == Used(|more|, closed, [])
  {
    forall r ensures Scan(CloseLine() + ([13] + r)) == Close { CloseLineFound(r); }
    HeaderWritten(st, version, status, reason, CloseLine(), Close, rest, end);
    AnswersClose(st, end, version, status);
  }

  lemma AnswersLength(st: OutState, end: nat, version: seq<byte>, status: seq<byte>, n: nat, digits: seq<byte>)
    ensures Answered(st, end, version, status, Length(n, digits)) ==
            Used(end + 4, OutState(false, false, n, st.seqno + 1),
                 [Property("VERSION", version), Property("STATUS", status), Property("CLEN", digits), MsgSend(Server, st.seqno)])
  {
  }

  lemma AnswersClose(st: OutState, end: nat, version: seq<byte>, status: seq<byte>)
    ensures Answered(st, end, version, status, Close) ==
            Used(end + 4, OutState(true, false, 0, st.seqno + 1),
                 [Property("VERSION", version), Property("STATUS", status), MsgSend(Server, st.seqno)])
  {
  }

  lemma HeaderWritten(st: OutState, version: seq<byte>, status: seq<byte>, reason: seq<byte>, line: seq<byte>, what: Announced,
                      rest: seq<byte>, end: nat)
    requires !st.done && st.toread == 0 && st.awaitStatus
    requires Word(version) && Word(status) && Word(reason) && |reason| < 16
    requires Short(ResponseFront(version, status, reason, line))
    requires Find(CString(ResponseFront(version, status, reason, line) + rest), CRLFCRLF) == Some(end)
    requires forall r :: Scan(line + ([13] + r)) == what
    ensures HttpsOutStep(st, ResponseFront(version, status, reason, line) + rest) == Answered(st, end, version, status, what)
  {
    var front := ResponseFront(version, status, reason, line);
    var cut := CopyOfFront(front, rest);
    Announced(version, status, reason, line, cut);
    StepOfAnnounced(st, front + rest, front + cut, end, version, status, what);
  }

  /** The start of a header that fits the copy and has no NUL in it. */
  predicate Short(front: seq<byte>) { |front| <= 1024 && 0 !in front }

  lemma CopyOfFront(front: seq<byte>, rest: seq<byte>) returns (cut: seq<byte>)
    requires Short(front)
    ensures HeaderCopy(front + rest) == front + cut
  {
    TextBehind(front, rest);
    var more := CString(rest);
    cut := if |front + more| <= 1024 then more else more[..1024 - |front|];
  }

  lemma StepOfAnnounced(st: OutState, buf: seq<byte>, text: seq<byte>, end: nat, version: seq<byte>, status: seq<byte>, what: Announced)
    requires !st.done && st.toread == 0 && st.awaitStatus
    requires Find(CString(buf), CRLFCRLF) == Some(end) && HeaderCopy(buf) == text
    requires TokenText(Token(text)) == version && TokenText(NextToken(Token(text))) == status
    requires NextToken(Token(text)).Some? && Scan(NextToken(Token(text)).value.1) == what
    ensures HttpsOutStep(st, buf) == Answered(st, end, version, status, what)
  {
  }

  function Answered(st: OutState, end: nat, version: seq<byte>, status: seq<byte>, what: Announced): OutStep {
    Used(end + 4, OutState(what.Close?, false, if what.Length? then what.n else 0, st.seqno + 1),
         [Property("VERSION", version), Property("STATUS", status)]
         + (if what.Length? then [Property("CLEN", what.text)] else []) + [MsgSend(Server, st.seqno)])
  }

  /** Behind a header that announced neither a length nor a close everything is passed through, for good. */
  lemma NothingAnnounced(st: OutState, buf: seq<byte>)
    requires !st.done && st.toread == 0 && !st.awaitStatus
    ensures HttpsOutStep(st, buf) == Used(|buf|, st, [])
  {
  }
}
