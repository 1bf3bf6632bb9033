/** The tracer's end of the log: a per-thread buffer of whole records, drained by short writes (binlog.c). */
module LogBuffer {
  import opened Bytes
  import opened Records

  const PIPE_BUF := 4096

  /** The connection to the log daemon. */
  class LogSocket {
    ghost var sent: seq<byte>
    ghost var failures: nat    // how many writes have failed

    constructor ()
      ensures sent == [] && failures == 0
    {
      sent, failures := [], 0;
    }

    /** An error, or any positive number of the bytes. */
    method Write(data: seq<byte>) returns (r: int)
      requires data != []
      modifies this
      ensures r == -1 || 1 <= r <= |data|
      ensures sent == if r == -1 then old(sent) else old(sent) + data[..r]
      ensures failures == old(failures) + if r == -1 then 1 else 0
    {
      r := *;
      if r != -1 && !(1 <= r <= |data|) { r := |data|; }
      if r == -1 { failures := failures + 1; } else { sent := sent + data[..r]; }
    }
  }

  /** Conversion to a 16-bit `short`. */
  function ToShort(x: int): (y: int)
    ensures IsShort(y) && (x - y) % 0x1_0000 == 0
  {
    (x + 0x8000) % 0x1_0000 - 0x8000
  }

  const NEWLINE: byte := 10
  const UNDERSCORE: byte := 95

  /** Newlines (10) have become underscores (95), and every other byte is as it was. */
  predicate Cleaned(t: seq<byte>, s: seq<byte>) {
    |t| == |s| && forall i | 0 <= i < |s| :: t[i] == if s[i] == 10 then 95 else s[i]
  }

  /** Every newline replaced, everything else kept. */
  function Underscored(s: seq<byte>): (t: seq<byte>)
    ensures Cleaned(t, s) && (10 !in s ==> t == s)
  {
    seq(|s|, i requires 0 <= i < |s| => if s[i] == NEWLINE then UNDERSCORE else s[i])
  }

  /** The record LOGBIN_gen makes of its arguments, up to the padding, which it does not set. */
  ghost predicate LoggedAs(r: Record, sc: int, rv: int, args: seq<int>, text: seq<byte>, nm: byte, tid: nat, pid: nat,
                           hi: nat, lo: nat) {
    && Wf(r)
    && r.hdr.tid == tid && r.hdr.pid == pid && r.hdr.hi == hi && r.hdr.lo == lo && r.hdr.nm == nm
    && IsShort(r.hdr.sc) && (sc - r.hdr.sc) % 0x1_0000 == 0 && IsShort(r.hdr.rv) && (rv - r.hdr.rv) % 0x1_0000 == 0
    && r.hdr.argLen == |args| && r.hdr.strLen == |text|
    && r.args == args && Cleaned(r.str, text)
  }

  /** Values that fit and texts without newlines are logged unchanged. */
  lemma LoggedUnchanged(r: Record, sc: int, rv: int, args: seq<int>, text: seq<byte>, nm: byte, tid: nat, pid: nat, hi: nat, lo: nat)
    requires LoggedAs(r, sc, rv, args, text, nm, tid, pid, hi, lo)
    ensures IsShort(sc) ==> r.hdr.sc == sc
    ensures IsShort(rv) ==> r.hdr.rv == rv
    ensures 10 !in text ==> r.str == text
  {
    if IsShort(sc) { SameShort(sc, r.hdr.sc); }
    if IsShort(rv) { SameShort(rv, r.hdr.rv); }
  }

  lemma SameShort(x: int, y: int)
    requires IsShort(x) && IsShort(y) && (x - y) % 0x1_0000 == 0
    ensures x == y
  {
  }

  lemma SentSome(sent: seq<byte>, a: array<byte>, start: nat, r: nat, end: nat)
    requires start + r <= end <= a.Length
    ensures sent + a[start..end] == (sent + a[start..end][..r]) + a[start + r..end]
  {
    var now, later := a[start..start + r], a[start + r..end];
    SplitSlice(a[..], start, start + r, end);
    assert a[start..end] == now + later && a[start..end][..r] == now;
    Assoc(sent, now, later);
  }

  lemma Assembled(a: array<byte>, before: seq<byte>, hdr: seq<byte>, args: seq<byte>, text: seq<byte>)
    requires |before| + |hdr| + |args| + |text| <= a.Length
    requires var body, base := |before| + |hdr|, |before| + |hdr| + |args|;
             a[..body] == before + hdr && a[body..base] == args && a[base..base + |text|] == text
    ensures a[..|before| + |hdr| + |args| + |text|] == before + (hdr + args + text)
  {
    var body, base := |before| + |hdr|, |before| + |hdr| + |args|;
    SplitSlice(a[..], 0, body, base);
    SplitSlice(a[..], 0, base, base + |text|);
    Assoc(before, hdr, args);
    Assoc(before, hdr + args, text);
  }

  class ThreadContext {
    const pid: nat
    const tid: nat
    const nm: byte
    const sock: LogSocket
    const lb: array<byte>
    var lbptr: int
    var fzHigh: nat
    var fzLow: nat

    ghost var logged: seq<Record>

    /** What has been sent, followed by what is buffered, is exactly what has been logged. */
    ghost predicate Valid()
      reads this, lb, sock
    {
      && Fits() && AllWf(logged)
      && sock.sent + lb[..lbptr] == EncodeAll(logged)
    }

    predicate Fits()
      reads this
    {
      && lb.Length == PIPE_BUF && 0 <= lbptr <= PIPE_BUF
      && pid < 0x1_0000_0000 && tid < 0x1_0000_0000_0000_0000 && fzHigh < 0x1_0000_0000 && fzLow < 0x1_0000_0000
    }

    constructor (pid: nat, tid: nat, nm: byte, sock: LogSocket)
      requires pid < 0x1_0000_0000 && tid < 0x1_0000_0000_0000_0000 && sock.sent == []
      ensures Valid() && fresh(lb) && logged == [] && this.sock == sock
    {
      this.pid, this.tid, this.nm, this.sock := pid, tid, nm, sock;
      lb := new byte[PIPE_BUF](i => 0);
      lbptr, fzHigh, fzLow, logged := 0, 0, 0, [];
    }

    /** `lb_flush`: write until everything is out; a failed write ends the process. */
    method LbFlush() returns (ok: bool)
      requires Valid()
      modifies this`lbptr, sock
      ensures sock.sent <= EncodeAll(logged)
      ensures ok ==> Valid() && lbptr == 0 && sock.sent == EncodeAll(logged)
      ensures sock.failures == old(sock.failures) + if ok then 0 else 1
    {
      ghost var all := sock.sent + lb[..lbptr];
      var start := 0;
      while start < lbptr
        invariant 0 <= start <= lbptr == old(lbptr)
        invariant sock.sent + lb[start..lbptr] == all && sock.failures == old(sock.failures)
      {
        var amt := lbptr - start;
        ghost var sent := sock.sent;
        var r := sock.Write(lb[start..start + amt]);
        if r == -1 { return false; }
        SentSome(sent, lb, start, r, lbptr);
        start := start + r;
      }
      assert lb[start..lbptr] == [];
      lbptr := 0;
      return true;
    }

    /** `lb_alloc_bytes`: room for a record, flushing first when it would not fit. */
    method LbAllocBytes(bytes: nat) returns (ok: bool, at: int)
      requires Valid()
      modifies this`lbptr, sock
      ensures sock.sent <= EncodeAll(logged)
      ensures ok ==> bytes <= PIPE_BUF
      ensures bytes <= PIPE_BUF ==> sock.failures == old(sock.failures) + if ok then 0 else 1
      ensures bytes > PIPE_BUF ==> sock.failures == old(sock.failures)
      ensures old(lbptr) + bytes <= 4095 ==> ok && at == old(lbptr) && sock.sent == old(sock.sent)
      ensures ok && old(lbptr) + bytes > 4095 ==> at == 0
      ensures ok ==> Fits() && 0 <= at && lbptr == at + bytes && sock.sent + lb[..at] == EncodeAll(logged)
    {
      if bytes > PIPE_BUF { return false, 0; }
      ok := true;
      if lbptr + bytes > PIPE_BUF - 1 {
        ok := LbFlush();
        if !ok { return ok, 0; }
      }
      at := lbptr;
      lbptr := lbptr + bytes;
    }

    /** Store bytes inside the record being built at `at`; what comes before it stays. */
    method Store(at: nat, off: nat, bytes: seq<byte>)
      requires at + off + |bytes| <= lb.Length
      modifies lb
      ensures lb[..at] == old(lb[..at])
      ensures lb[at..at + off] == old(lb[at..at + off])
      ensures lb[at + off..at + off + |bytes|] == bytes
      ensures lb[at + off + |bytes|..] == old(lb[at + off + |bytes|..])
    {
      MemCpy(lb, at + off, bytes);
      ghost var all := lb[..];
      assert lb[..at] == all[..at] && lb[at..at + off] == all[at..at + off];
      assert lb[at + off..at + off + |bytes|] == all[at + off..at + off + |bytes|];
      assert lb[at + off + |bytes|..] == all[at + off + |bytes|..];
    }

    /** Store bytes behind what the record holds so far; what lies beyond `limit` stays. */
    method StoreBehind(at: nat, off: nat, bytes: seq<byte>, limit: nat)
      requires off + |bytes| <= limit && at + limit <= lb.Length
      modifies lb
      ensures lb[..at] == old(lb[..at])
      ensures lb[at..at + off + |bytes|] == old(lb[at..at + off]) + bytes
      ensures lb[at + limit..] == old(lb[at + limit..])
    {
      Store(at, off, bytes);
      SplitSlice(lb[..], at, at + off, at + off + |bytes|);
      assert lb[at + limit..] == lb[at + off + |bytes|..][limit - off - |bytes|..];
    }

    /** `lb_populate`, then the two lengths: the fields of the header, around the padding. */
    method PutHeader(at: nat, h: Header, num: int, slen: int)
      requires at + HEADER <= lb.Length && |h.pad| == 4 && h.pad == lb[at + 28..at + 32]
      requires h.argLen == 0 && h.strLen == 0
      modifies lb
      ensures lb[..at] == old(lb[..at])
      ensures lb[at..at + HEADER] == EncodeHeader(h.(argLen := num, strLen := slen))
    {
      ghost var final := EncodeHeader(h.(argLen := num, strLen := slen));
      ghost var front := EncodeHeader(h)[..25];
      Store(at, 0, EncodeHeader(h)[..28]);
      assert lb[at + 28..at + 32] == lb[at + 28..][..4] == h.pad;
      assert lb[at..at + 25] == lb[at..at + 28][..25] == front;
      Store(at, 25, LittleEndian(Wrap(num, 1), 1));
      assert lb[at + 28..at + 32] == lb[at + 26..][2..6] == h.pad;
      Store(at, 26, LittleEndian(Wrap(slen, 2), 2));
      assert lb[at + 28..at + 32] == lb[at + 28..][..4] == h.pad;
      assert lb[at..at + 26] == front + LittleEndian(Wrap(num, 1), 1) by {
        assert lb[at..at + 26] == lb[at..at + 25] + lb[at + 25..at + 26];
      }
      assert lb[at..at + 32] == lb[at..at + 26] + lb[at + 26..at + 28] + lb[at + 28..at + 32];
      assert final[..25] == front;
      assert final == final[..25] + LittleEndian(Wrap(num, 1), 1) + LittleEndian(Wrap(slen, 2), 2) + h.pad;
    }

    /** SETSTR: copy, then replace the newlines in place. */
    method SetStr(at: nat, off: nat, s: seq<byte>)
      requires at + off + |s| <= lb.Length
      modifies lb
      ensures lb[..at + off] == old(lb[..at + off])
      ensures lb[at + off..at + off + |s|] == Underscored(s)
      ensures forall i | 0 <= i < |s| :: lb[at + off + i] == if s[i] == 10 then 95 else s[i]
    {
      Store(at + off, 0, s);
      ghost var before := lb[..at + off];
      for i := 0 to |s|
        invariant lb[..at + off] == before
        invariant forall j :: 0 <= j < |s| ==> lb[at + off + j] == if j < i && s[j] == NEWLINE then UNDERSCORE else s[j]
      {
        if lb[at + off + i] == NEWLINE { lb[at + off + i] := UNDERSCORE; }
      }
    }

    /** SETARG for the first `|args|` arguments; what surrounds them stays. */
    method SetArgs(at: nat, args: seq<int>)
      requires at + HEADER + 4 * |args| <= lb.Length
      modifies lb
      ensures lb[..at + HEADER] == old(lb[..at + HEADER])
      ensures lb[at + HEADER..at + HEADER + 4 * |args|] == EncodeArgs(args)
      ensures lb[at + HEADER + 4 * |args|..] == old(lb[at + HEADER + 4 * |args|..])
    {
      var base := at + HEADER;
      for i := 0 to |args|
        invariant lb[..base] == old(lb[..base])
        invariant lb[base..base + 4 * i] == EncodeArgs(args[..i])
        invariant lb[base + 4 * |args|..] == old(lb[base + 4 * |args|..])
      {
        StoreBehind(base, 4 * i, LittleEndian(Wrap(args[i], 4), 4), 4 * |args|);
        EncodeArgsAppend(args[..i], args[i]);
        assert args[..i] + [args[i]] == args[..i + 1];
      }
      assert args[..|args|] == args;
    }

    /** The string, then the arguments in front of it. */
    method PutBody(at: nat, args: seq<int>, text: seq<byte>)
      requires at + PredictSize(|args|, |text|) <= lb.Length
      modifies lb
      ensures var body, base := at + HEADER, at + HEADER + 4 * |args|;
              lb[..body] == old(lb[..body]) && lb[body..base] == EncodeArgs(args) && lb[base..base + |text|] == Underscored(text)
    {
      var base := at + HEADER + 4 * |args|;
      ghost var front := lb[..base];
      SetStr(at, HEADER + 4 * |args|, text);
      SliceOfFilled(lb, base, 0, at + HEADER);
      assert lb[..at + HEADER] == front[..at + HEADER];
      ghost var tail := lb[base..];
      assert tail[..|text|] == Underscored(text);
      SetArgs(at, args);
      assert lb[base..base + |text|] == tail[..|text|] by { SliceOfSuffix(lb[..], base, 0, |text|); }
    }

    /** Build one record in the allocated room at `at`. */
    method Compose(at: nat, h: Header, args: seq<int>, text: seq<byte>)
      requires at + PredictSize(|args|, |text|) <= lb.Length && |h.pad| == 4 && h.pad == lb[at + 28..at + 32]
      requires h.argLen == 0 && h.strLen == 0
      modifies lb
      ensures lb[..at + PredictSize(|args|, |text|)]
           == old(lb[..at]) + Encode(Record(h.(argLen := |args|, strLen := |text|), args, Underscored(text)))
    {
      var body := at + HEADER;
      var base := body + 4 * |args|;
      ghost var before := lb[..at];
      ghost var hdr := h.(argLen := |args|, strLen := |text|);
      PutHeader(at, h, |args|, |text|);
      assert lb[..body] == before + EncodeHeader(hdr);
      PutBody(at, args, text);
      Assembled(lb, before, EncodeHeader(hdr), EncodeArgs(args), Underscored(text));
    }

    /** Build the record in its allocated room, and count it as logged. */
    method LogAt(at: nat, h: Header, args: seq<int>, text: seq<byte>)
      requires Fits() && AllWf(logged) && lbptr == at + PredictSize(|args|, |text|)
      requires sock.sent + lb[..at] == EncodeAll(logged)
      requires h.pad == lb[at + 28..at + 32] && h.argLen == 0 && h.strLen == 0
      requires Wf(Record(h.(argLen := |args|, strLen := |text|), args, Underscored(text)))
      modifies this`logged, lb
      ensures Valid()
      ensures logged == old(logged) + [Record(h.(argLen := |args|, strLen := |text|), args, Underscored(text))]
    {
      ghost var r := Record(h.(argLen := |args|, strLen := |text|), args, Underscored(text));
      ghost var before := lb[..at];
      Compose(at, h, args, text);
      EncodeAllSnoc(logged, r);
      logged := logged + [r];
      assert sock.sent + (before + Encode(r)) == (sock.sent + before) + Encode(r);
    }

    /**
      LOGBIN_gen: one call logs exactly one record, behind everything logged before.  A record that
      cannot fit in the buffer, or a failed flush, ends the process.
     */
    method LogbinGen(sc: int, rv: int, args: seq<int>, s: seq<byte>, sec: nat, usec: nat) returns (ok: bool)
      requires Valid() && |args| <= 3 && (forall a | a in args :: IsInt32(a))
      requires sec < 0x1_0000_0000 && usec < 0x1_0000_0000
      modifies this`lbptr, this`logged, lb, sock
      ensures sock.sent <= EncodeAll(logged)
      ensures PredictSize(|args|, |CString(s)|) > PIPE_BUF ==> !ok && sock.failures == old(sock.failures)
      ensures PredictSize(|args|, |CString(s)|) <= PIPE_BUF ==> sock.failures == old(sock.failures) + if ok then 0 else 1
      ensures !ok ==> logged == old(logged)
      ensures ok ==>
                && Valid() && |logged| == |old(logged)| + 1 && old(logged) <= logged
                && LoggedAs(logged[|logged| - 1], sc, rv, args, CString(s), nm, tid, pid,
                            if fzHigh == 0 then sec else fzHigh, if fzLow == 0 then usec else fzLow)
    {
      var text := CString(s);
      var slen := |text|;
      var num := |args|;
      var at;
      ok, at := LbAllocBytes(PredictSize(num, slen));
      if !ok { return; }
      var hi, lo := if fzHigh == 0 then sec else fzHigh, if fzLow == 0 then usec else fzLow;
      var h := Header(tid, pid, hi, lo, ToShort(sc), ToShort(rv), nm, 0, 0, lb[at + 28..at + 32]);
      LogAt(at, h, args, text);
      MadeAsLogged(h, sc, rv, args, text);
    }
  }

  /** The record LOGBIN_gen builds is the one it should. */
  lemma MadeAsLogged(h: Header, sc: int, rv: int, args: seq<int>, text: seq<byte>)
    requires h.sc == ToShort(sc) && h.rv == ToShort(rv) && Wf(Record(h.(argLen := |args|, strLen := |text|), args, Underscored(text)))
    ensures LoggedAs(Record(h.(argLen := |args|, strLen := |text|), args, Underscored(text)), sc, rv, args, text,
                     h.nm, h.tid, h.pid, h.hi, h.lo)
  {
  }
}
