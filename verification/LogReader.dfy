/** Reading the log file back, record by record, through a small buffer (common.c). */
module LogReader {
  import opened Bytes
  import opened Records
  import opened RelayBooks

  const PIPE_BUF := 4096

  class LogFile {
    ghost const contents: seq<byte>
    var rest: seq<byte>

    constructor (contents: seq<byte>)
      ensures this.contents == contents == rest
    {
      this.contents, rest := contents, contents;
    }

    /** Some bytes, or 0 at the end of the file. */
    method Read(buf: array<byte>, room: nat) returns (r: nat)
      requires 0 < room <= buf.Length
      modifies this, buf
      ensures r <= room && r <= |old(rest)| && (r == 0 <==> old(rest) == [])
      ensures rest == old(rest)[r..] && buf[..r] == old(rest)[..r]
    {
      var k: nat := *;
      r := if room < |rest| then room else |rest|;
      if 0 < k < r { r := k; }
      MemCpy(buf, 0, rest[..r]);
      assert buf[..r] == buf[..][..r];
      rest := rest[r..];
    }
  }

  datatype GetResult =
    | Got(entry: Entry)
    | EndOfLog      // NULL
    | Broken        // the assertion that a header is followed by its body failed

  class Reader {
    const lbBuf: array<byte>
    const file: LogFile
    var lbCur: int
    var lbLast: int
    var bytesSeen: int

    ghost predicate Bounds()
      reads this
    {
      lbBuf.Length == PIPE_BUF + 1 && 0 <= lbCur <= lbLast + 1 <= PIPE_BUF
    }

    /** The bytes not yet handed out: the rest of the buffer, then the rest of the file. */
    ghost function Unread(): seq<byte>
      requires Bounds()
      reads this, lbBuf, file
    {
      lbBuf[lbCur..lbLast + 1] + file.rest
    }

    ghost predicate Valid()
      reads this, lbBuf, file
    {
      && Bounds() && 0 <= bytesSeen <= |file.contents|
      && Unread() == file.contents[bytesSeen..]
    }

    constructor (file: LogFile)
      requires file.rest == file.contents
      ensures Valid() && bytesSeen == 0 && this.file == file && fresh(lbBuf)
    {
      this.file := file;
      lbBuf := new byte[PIPE_BUF + 1](i => 0);
      lbCur, lbLast, bytesSeen := 0, -1, 0;
    }

    /** `refill`, without waiting at the end of the file. */
    method Refill() returns (ok: bool)
      requires Valid() && lbCur == lbLast + 1
      modifies this`lbCur, this`lbLast, lbBuf, file
      ensures Valid() && Unread() == old(Unread())
      ensures ok <==> lbCur <= lbLast
      ensures !ok ==> Unread() == []
    {
      assert lbBuf[lbCur..lbLast + 1] == [];
      lbCur, lbLast := 0, -1;
      var r := file.Read(lbBuf, PIPE_BUF);
      if r == 0 { return false; }
      lbLast := r - 1;
      assert lbBuf[..r] == lbBuf[lbCur..lbLast + 1];
      return true;
    }

    /** `fill`: the next `num` bytes, over as many reads as it takes. */
    method Fill(num: nat) returns (thing: seq<byte>, ok: bool)
      requires Valid()
      modifies this`lbCur, this`lbLast, this`bytesSeen, lbBuf, file
      ensures Valid()
      ensures ok <==> |old(Unread())| >= num
      ensures ok ==> thing == old(Unread())[..num] && Unread() == old(Unread())[num..]
      ensures !ok ==> Unread() == []
    {
      ghost var all := Unread();
      thing := [];
      var need := num;
      assert [] + all == all;
      while need > 0
        invariant Valid() && 0 <= need == num - |thing|
        invariant thing + Unread() == all
        decreases need, if lbCur <= lbLast then 0 else 1
      {
        if lbLast >= lbCur {
          var avail := lbLast - lbCur + 1;
          var tocopy := Min(need, avail);
          thing := Take(thing, tocopy);
          need := need - tocopy;
        }
        if need > 0 {
          var ok' := Refill();
          if !ok' {
            assert thing + [] == thing;
            return thing, false;
          }
        }
      }
      return thing, true;
    }

    /** Copy `n` buffered bytes behind `thing`. */
    method Take(thing: seq<byte>, n: nat) returns (more: seq<byte>)
      requires Valid() && n <= lbLast - lbCur + 1
      modifies this`lbCur, this`bytesSeen
      ensures Valid() && lbCur == old(lbCur) + n && |more| == |thing| + n
      ensures more + Unread() == thing + old(Unread())
    {
      ghost var before, head := Unread(), lbBuf[lbCur..lbCur + n];
      TakeFront(thing, lbBuf, lbCur, n, lbLast + 1, file.rest);
      more := thing + lbBuf[lbCur..lbCur + n];
      lbCur := lbCur + n;
      bytesSeen := bytesSeen + n;
      Leftover(before, head, file.contents, bytesSeen);
    }

    /**
      `get_le` on what is left of a log of whole records `rs`: the next record, or the end of the
      log when not even a header is left, or a failed assertion when a header is left alone.
     */
    method GetLe(ghost rs: seq<Record>, ghost k: nat) returns (res: GetResult)
      requires Valid() && Relayed(rs, k, file.contents, Unread())
      modifies this`lbCur, this`lbLast, this`bytesSeen, lbBuf, file
      ensures Valid()
      ensures match res
              case Got(entry) => k < |rs| && Wf(rs[k]) && entry == Thawed(rs[k])
                                 && Relayed(rs, k + 1, file.contents, Unread())
              case EndOfLog => |old(Unread())| < HEADER && Unread() == []
              case Broken => k < |rs| && HEADER <= |old(Unread())| < |Encode(rs[k])|
    {
      ghost var held := Unread();
      var buf, ok := Fill(HEADER);
      if !ok { return EndOfLog; }
      NextInFile(rs, k, file.contents, held);
      var fz := Thaw1(buf);
      assert buf[..HEADER] == held[..HEADER];
      var th;
      th, ok := GetBody(fz, rs[k]);
      return if ok then Got(th) else Broken;
    }

    /** The second half of `get_le`: what follows the header `fz`. */
    method GetBody(fz: Header, ghost rec: Record) returns (th: Entry, ok: bool)
      requires Valid() && Wf(rec) && fz == rec.hdr
      requires var sz := FrozenSize(fz) - HEADER;
               |Unread()| >= sz ==> Unread()[..sz] == EncodeArgs(rec.args) + rec.str
      modifies this`lbCur, this`lbLast, this`bytesSeen, lbBuf, file
      ensures Valid() && (ok <==> |old(Unread())| >= FrozenSize(fz) - HEADER)
      ensures ok ==> th == Thawed(rec) && Unread() == old(Unread())[FrozenSize(fz) - HEADER..]
    {
      var sz := FrozenSize(fz) - HEADER;
      var buf;
      buf, ok := Fill(sz);
      if !ok { return Entry(fz, [], []), false; }
      th := Thaw2(buf, fz, sz);
      ThawBytes(rec, buf);
      assert buf[4 * fz.argLen..sz] == buf[4 * fz.argLen..];
    }

    /** In a file of whole records there always is a whole record, or nothing. */
    method GetNext(ghost rs: seq<Record>, ghost k: nat) returns (res: GetResult)
      requires Valid() && Relayed(rs, k, file.contents, Unread()) && file.contents == EncodeAll(rs)
      modifies this`lbCur, this`lbLast, this`bytesSeen, lbBuf, file
      ensures Valid()
      ensures match res
              case Got(entry) => k < |rs| && Wf(rs[k]) && entry == Thawed(rs[k])
                                 && Relayed(rs, k + 1, file.contents, Unread())
              case EndOfLog => k == |rs| && Unread() == []
              case Broken => false
    {
      RestOfFile(rs, k, file.contents, Unread());
      res := GetLe(rs, k);
    }

    /** The loop of `expand`: every record of a file of whole records, and every byte of it. */
    method ReadAll(ghost rs: seq<Record>) returns (entries: seq<Entry>)
      requires Valid() && bytesSeen == 0 && AllWf(rs) && file.contents == EncodeAll(rs)
      modifies this`lbCur, this`lbLast, this`bytesSeen, lbBuf, file
      ensures |entries| == |rs| && forall i | 0 <= i < |rs| :: Wf(rs[i]) && entries[i] == Thawed(rs[i])
      ensures bytesSeen == |file.contents|
    {
      entries := [];
      ghost var contents := file.contents;
      StartOfFile(rs, contents);
      assert Unread() == contents;
      while true
        invariant Valid() && |entries| <= |rs| && Relayed(rs, |entries|, contents, Unread())
        invariant forall i | 0 <= i < |entries| :: Wf(rs[i]) && entries[i] == Thawed(rs[i])
        decreases |rs| - |entries|
      {
        var le := GetNext(rs, |entries|);
        if le.EndOfLog? { break; }
        entries := entries + [le.entry];
      }
    }
  }

  lemma TakeFront(thing: seq<byte>, a: array<byte>, cur: nat, n: nat, end: nat, rest: seq<byte>)
    requires cur + n <= end <= a.Length
    ensures a[cur..end] + rest == a[cur..cur + n] + (a[cur + n..end] + rest)
    ensures thing + (a[cur..end] + rest) == (thing + a[cur..cur + n]) + (a[cur + n..end] + rest)
  {
    var head, tail := a[cur..cur + n], a[cur + n..end];
    SplitSlice(a[..], cur, cur + n, end);
    assert a[cur..end] == head + tail;
    Assoc(head, tail, rest);
    Assoc(thing, head, tail + rest);
  }

  lemma Leftover(before: seq<byte>, head: seq<byte>, contents: seq<byte>, seen: int)
    requires |head| <= seen <= |contents| && head <= before && before == contents[seen - |head|..]
    ensures before[|head|..] == contents[seen..]
  {
  }

  lemma StartOfFile(rs: seq<Record>, contents: seq<byte>)
    requires AllWf(rs) && contents == EncodeAll(rs)
    ensures Relayed(rs, 0, contents, contents)
  {
    assert EncodeAll(rs[..0]) + contents == contents && rs[0..] == rs;
  }

  /** The next record, cut after its header. */
  lemma NextInFile(rs: seq<Record>, k: nat, contents: seq<byte>, held: seq<byte>)
    requires Relayed(rs, k, contents, held) && |held| >= HEADER
    ensures k < |rs| && Wf(rs[k]) && DecodeHeader(held[..HEADER]) == rs[k].hdr
    ensures var sz := FrozenSize(rs[k].hdr) - HEADER;
            && |Encode(rs[k])| == HEADER + sz
            && (|held[HEADER..]| >= sz ==>
                  && held[HEADER..][..sz] == EncodeArgs(rs[k].args) + rs[k].str
                  && Relayed(rs, k + 1, contents, held[HEADER..][sz..]))
  {
    RelayedFront(rs, k, contents, held);
    var sz := FrozenSize(rs[k].hdr) - HEADER;
    if |held[HEADER..]| >= sz {
      assert held[HEADER..][..sz] == held[HEADER..HEADER + sz];
      assert held[HEADER..][sz..] == held[HEADER + sz..];
    }
  }

  /** In a file of whole records what is left is whole records. */
  lemma RestOfFile(rs: seq<Record>, k: nat, contents: seq<byte>, held: seq<byte>)
    requires Relayed(rs, k, contents, held) && contents == EncodeAll(rs)
    ensures held == EncodeAll(rs[k..])
    ensures k < |rs| ==> |held| >= |Encode(rs[k])| >= HEADER
    ensures k == |rs| ==> held == []
  {
    EncodeAllSplit(rs, k);
    var head := EncodeAll(rs[..k]);
    assert held == (head + held)[|head|..] == EncodeAll(rs[k..]);
    if k < |rs| {
      assert rs[k] in rs && rs[k..][0] == rs[k];
    }
  }
}
