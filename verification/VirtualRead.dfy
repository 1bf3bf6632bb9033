/** The read half of a virtual descriptor: one buffer, five indices, and a processor in front of the application. */
module VirtualRead {
  import opened Bytes
  import opened Kernels
  import opened Protocols
  import opened Processors
  import opened ReadBooks
  import opened References
  import opened Select

  datatype ReadResult =
    | Data(data: seq<byte>)
    | OsSays(r: int)     // end of file or error, passed on
    | Aborted            // a processor's assertion failed

  class ReadSide {
    const fd: int
    const rbuf: array<byte>
    const pp: Processor
    const kernel: Kernel
    const log: EventLog
    const sel: SelectCache

    var rbuflen: int     // bytes in the buffer
    var rbufofs: int     // bytes of it the processor has used
    var rlastlen: int    // bytes of it the application has been given
    var tosend: int      // bytes of it the application may have next
    var ppwantmore: bool

    ghost const ref: Reference
    ghost var books: Books

    /** The fields say what the books say. */
    ghost predicate Kept()
      reads this, rbuf, kernel, Footprint(pp)
    {
      && rbuf.Length == VBUFSIZE && 0 <= rbuflen <= VBUFSIZE
      && rbuf[..rbuflen] == books.held && rbufofs == books.ofs && rlastlen == books.last
      && tosend == books.tosend && ppwantmore == books.wantmore
      && kernel.handed == books.handed && StateOf(pp) == books.st
    }

    ghost predicate Valid()
      reads this, rbuf, kernel, Footprint(pp)
    {
      Kept() && Sound(books, ref)
    }

    constructor (fd: int, pp: Processor, kernel: Kernel, log: EventLog, sel: SelectCache)
      requires IsInit(StateOf(pp)) && kernel.handed == []
      ensures Valid() && fresh(rbuf)
      ensures this.fd == fd && this.pp == pp && this.kernel == kernel && this.log == log && this.sel == sel
      ensures ref.first == StateOf(pp) && books == NoBooks(StateOf(pp))
    {
      ghost var first := ReferenceFrom(StateOf(pp));
      FirstSound(first);
      this.fd, this.pp, this.kernel, this.log, this.sel := fd, pp, kernel, log, sel;
      rbuf := new byte[VBUFSIZE](i => 0);
      rbuflen, rbufofs, rlastlen, tosend, ppwantmore := 0, 0, 0, 0, false;
      ref, books := first, NoBooks(StateOf(pp));
    }

    /** `buf_shift`: drop what both the application and the processor are done with. */
    method BufShift()
      requires Valid() && !books.Buffered()
      modifies this`rbufofs, this`rbuflen, this`rlastlen, this`books, rbuf
      ensures Valid() && books == Shift(old(books)) && !books.Buffered()
      ensures rbuflen == books.last == VBUFSIZE - old(books).Room() && rbufofs == 0
    {
      ShiftSound(books, ref);
      var begin := Min(rbufofs, rlastlen);
      books := Shift(books);
      if begin == 0 { return; }
      SliceOfFilled(rbuf, rbuflen, begin, rbuflen);
      MoveDown(rbuf, begin, rbuflen - begin);
      rbufofs := rbufofs - begin;
      rbuflen := rbuflen - begin;
      rlastlen := rlastlen - begin;
    }

    /** The indirect call, described by the reference step. */
    method CallPP(buf: seq<byte>) returns (r: int, aborted: bool)
      requires Means(ref) && buf != [] && Reachable(StateOf(pp))
      modifies Footprint(pp), log
      ensures Did(ref.step(old(StateOf(pp)), buf), r, aborted, old(StateOf(pp)), StateOf(pp),
                  old(log.entries), log.entries)
      ensures aborted <==> ref.step(old(StateOf(pp)), buf).Died?
    {
      assert ref.step(StateOf(pp), buf) == PPStep(StateOf(pp), buf);
      r, aborted := Call(pp, buf, log);
    }

    /** `present_pp`: show the processor everything it has not used. */
    method PresentPP() returns (aborted: bool)
      requires Kept() && Pending(books, ref)
      modifies this`ppwantmore, this`tosend, this`rbufofs, this`books, Footprint(pp), log
      ensures aborted <==> Dies(ref, old(books).st, Unused(old(books).handed, old(books).consumed))
      ensures !aborted ==>
                var shown := Unused(old(books).handed, old(books).consumed);
                && Ran(old(books), shown, ref.step(old(books).st, shown), books)
      ensures !aborted ==>
                && Valid() && tosend > 0
                && books.delivered == old(books.delivered)
                && old(books.rlog) <= books.rlog && log.entries == old(log.entries) + books.rlog[|old(books.rlog)|..]
    {
      ghost var before := books;
      UnusedIsHeld(books, ref);
      var a;
      a, aborted := Ask();
      if aborted { return; }
      books := PresentAll(before, ref);
      TakeAnswer(a);
    }

    /** The call on everything the processor has not used. */
    method Ask() returns (a: int, aborted: bool)
      requires Kept() && Pending(books, ref)
      modifies this`ppwantmore, Footprint(pp), log
      ensures !ppwantmore
      ensures Did(ref.step(books.st, books.held[books.ofs..]), a, aborted, books.st, StateOf(pp), old(log.entries), log.entries)
      ensures aborted <==> ref.step(books.st, books.held[books.ofs..]).Died?
      ensures books.held[books.ofs..] != []
    {
      PendingStep(books, ref);
      SliceOfFilled(rbuf, rbuflen, rbufofs, rbuflen);
      var amt := rbuflen - rbufofs;
      ppwantmore := false;
      a, aborted := CallPP(rbuf[rbufofs..rbufofs + amt]);
    }

    /** What the processor answered decides how far the application may go. */
    method TakeAnswer(a: int)
      modifies this`ppwantmore, this`tosend, this`rbufofs
      ensures a < 0 ==> tosend == rbuflen - rlastlen && ppwantmore && rbufofs == old(rbufofs)
      ensures a >= 0 ==> rbufofs == old(rbufofs) + a && tosend == rbufofs - rlastlen && ppwantmore == old(ppwantmore)
    {
      if a < 0 {
        tosend := rbuflen - rlastlen;
        ppwantmore := true;
      } else {
        rbufofs := rbufofs + a;
        tosend := rbufofs - rlastlen;
      }
    }

    /** `buf_ret`: give the application up to `len` of the bytes it may have, and set the hint. */
    method BufRet(len: nat) returns (data: seq<byte>)
      requires Valid() && tosend > 0
      modifies this`rlastlen, this`tosend, this`books, sel
      ensures Valid() && |data| == Min(len, old(tosend)) && tosend == old(tosend) - |data|
      ensures books.delivered == old(books.delivered) + data && Idle(old(books), books) && books.wantmore == old(books.wantmore)
      ensures sel.Cached() == Hint(books, fd, old(sel.Cached()))
    {
      assert rlastlen < VBUFSIZE;
      var cando := Min(len, tosend);
      data := rbuf[rlastlen..rlastlen + cando];
      SliceOfFilled(rbuf, rbuflen, rlastlen, rlastlen + cando);
      DeliverSound(books, ref, cando);
      books := Deliver(books, cando);
      rlastlen := rlastlen + cando;
      tosend := tosend - cando;
      assert tosend >= 0;
      if rlastlen == rbuflen {
        sel.ClearReadable(fd);
      } else {
        sel.SetReadable(fd);
      }
    }

    /** The system call itself, on a buffer with nothing to drop. */
    method Fetch() returns (r: int, ghost news: seq<byte>)
      requires Valid() && !books.Buffered() && rbuflen == books.last && rbufofs == 0
      modifies this`rbuflen, this`books, rbuf, kernel
      ensures kernel.handed + kernel.incoming == old(kernel.handed + kernel.incoming)
      ensures kernel.calls == old(kernel.calls) + 1 && kernel.lastRoom == VBUFSIZE - old(rbuflen)
      ensures if r <= 0 then Valid() && books == old(books)
              else Kept() && Pending(books, ref) && books == Grow(old(books), news)
    {
      news := kernel.incoming;
      r := kernel.Read(rbuf, rbuflen, VBUFSIZE - rbuflen);
      if r <= 0 { return; }
      news := news[..r];
      GrowPending(books, ref, news);
      books := Grow(books, news);
      SplitSlice(rbuf[..], 0, rbuflen, rbuflen + r);
      assert rbuf[..rbuflen + r] == books.held;
      rbuflen := rbuflen + r;
    }

    /** The middle of `virtual_read`: make room and ask the operating system. */
    method Refill() returns (r: int, ghost news: seq<byte>)
      requires Valid() && !books.Buffered()
      modifies this`rbuflen, this`rbufofs, this`rlastlen, this`books, rbuf, kernel
      ensures kernel.handed + kernel.incoming == old(kernel.handed + kernel.incoming)
      ensures kernel.calls == old(kernel.calls) + 1 && kernel.lastRoom == old(books).Room()
      ensures if r <= 0 then Valid() && books == Shift(old(books))
              else Kept() && Pending(books, ref) && books == Grow(Shift(old(books)), news)
    {
      BufShift();
      r, news := Fetch();
    }

    /**
      Show the processor what is pending, and give the application what it then may have.  There always
      is something, so the source does not go on to the system call from here.
     */
    method Serve(len: nat) returns (res: ReadResult)
      requires Kept() && Pending(books, ref)
      modifies this`rbufofs, this`rlastlen, this`tosend, this`ppwantmore, this`books, Footprint(pp), log, sel
      ensures !res.Aborted? ==> Valid()
      ensures res.Aborted? <==> Dies(ref, old(books).st, Unused(old(books).handed, old(books).consumed))
      ensures !res.OsSays? && (res.Data? ==> Gave(res.data, len, old(books), old(sel.Cached()), old(log.entries)))
      ensures res.Data? ==>
                var shown := Unused(old(books).handed, old(books).consumed);
                Ran(old(books), shown, ref.step(old(books).st, shown), books)
    {
      var aborted := PresentPP();
      if aborted { return Aborted; }
      assert tosend > 0;
      var data := BufRet(len);
      res := Data(data);
    }

    /** Nothing is left but bytes the processor has seen and wants more of. */
    method FromSystem(len: nat) returns (res: ReadResult)
      requires Valid() && !books.Buffered()
      modifies this`rbuflen, this`rbufofs, this`rlastlen, this`tosend, this`ppwantmore, this`books,
               rbuf, kernel, Footprint(pp), log, sel
      ensures !res.Aborted? ==> Valid()
      ensures kernel.handed + kernel.incoming == old(kernel.handed + kernel.incoming)
      ensures kernel.calls == old(kernel.calls) + 1 && kernel.lastRoom == old(books).Room()
      ensures res.Aborted? <==> Dies(ref, old(books).st, Unused(kernel.handed, old(books).consumed))
      ensures res.Data? ==> Gave(res.data, len, old(books), old(sel.Cached()), old(log.entries))
      ensures res.Data? ==>
                var shown := Unused(kernel.handed, old(books).consumed);
                Ran(old(books), shown, ref.step(old(books).st, shown), books)
      ensures res.OsSays? ==> res.r <= 0 && books == Shift(old(books)) && sel.Cached() == old(sel.Cached())
                              && log.entries == old(log.entries)
    {
      IdleIsQuiet(books, ref);
      ghost var before := books;
      var r, news := Refill();
      if r <= 0 { return OsSays(r); }
      res := ServeNews(len, before);
    }

    /** What has been read since `before` is served, in terms of `before`. */
    method ServeNews(len: nat, ghost before: Books) returns (res: ReadResult)
      requires Kept() && Pending(books, ref) && Idle(before, books) && before.delivered == books.delivered
      modifies this`rbufofs, this`rlastlen, this`tosend, this`ppwantmore, this`books, Footprint(pp), log, sel
      ensures !res.Aborted? ==> Valid()
      ensures res.Aborted? <==> Dies(ref, before.st, Unused(kernel.handed, before.consumed))
      ensures !res.OsSays? && (res.Data? ==> Gave(res.data, len, before, old(sel.Cached()), old(log.entries)))
      ensures res.Data? ==>
                var shown := Unused(kernel.handed, before.consumed);
                Ran(before, shown, ref.step(before.st, shown), books)
    {
      ghost var shown := Unused(books.handed, books.consumed);
      ghost var grown := books;
      res := Serve(len);
      if res.Data? { RanSince(before, grown, shown, ref.step(grown.st, shown), books); }
    }

    /** `data` is what this read added to what the application has been given. */
    ghost predicate Gave(data: seq<byte>, len: nat, before: Books, cached: Sets, logged: seq<Event>)
      reads this, sel, log
    {
      && books.delivered == before.delivered + data
      && |data| <= len && (len > 0 ==> data != []) && (|data| == len || tosend == 0)
      && sel.Cached() == Hint(books, fd, cached)
      && before.rlog <= books.rlog && log.entries == logged + books.rlog[|before.rlog|..]
    }

    /**
      `virtual_read` (and `virtual_recv`, `virtual_recvfrom`, which differ only in the system call).
      `len` is below 2^31 because the source narrows it to `int`.  The process is stopped exactly when
      the processor's assertion fails on the bytes it has not used.
     */
    method VirtualRead(len: nat) returns (res: ReadResult)
      requires Valid() && len < 0x8000_0000
      modifies this`rbuflen, this`rbufofs, this`rlastlen, this`tosend, this`ppwantmore, this`books,
               rbuf, kernel, Footprint(pp), log, sel
      ensures !res.Aborted? ==> Valid()
      ensures res.Aborted? <==> old(tosend) == 0 && Dies(ref, old(books).st, Unused(kernel.handed, old(books).consumed))
      ensures Hardy(ref.first) ==> !res.Aborted?
      ensures kernel.handed + kernel.incoming == old(kernel.handed + kernel.incoming)
      ensures old(books.Buffered()) ==> !res.OsSays? && kernel.calls == old(kernel.calls)
      ensures !old(books.Buffered()) ==> kernel.calls == old(kernel.calls) + 1 && kernel.lastRoom == old(books).Room()
      ensures res.Data? ==> Gave(res.data, len, old(books), old(sel.Cached()), old(log.entries))
      ensures res.Data? ==>
                var shown := Unused(kernel.handed, old(books).consumed);
                if old(tosend) > 0 then Idle(old(books), books)
                else Ran(old(books), shown, ref.step(old(books).st, shown), books)
      ensures res.OsSays? ==> res.r <= 0 && books == Shift(old(books)) && sel.Cached() == old(sel.Cached())
                              && log.entries == old(log.entries)
    {
      if Hardy(ref.first) { HardyBooks(books, ref); }
      // what it may already have comes first
      if tosend > 0 {
        var data := BufRet(len);
        return Data(data);
      }
      // the application caught up with the processor; see if it can work with what is there
      if rbufofs < rbuflen && !ppwantmore {
        ShowPending(books, ref);
        res := Serve(len);
        return;
      }
      res := FromSystem(len);
    }
  }

  /** The cache with `fd` marked readable exactly when its next read needs no system call. */
  function Hint(b: Books, fd: int, cached: Sets): Sets {
    if b.Buffered() then cached.Union(Only(fd, ForRead)) else Without(cached, fd, ForRead)
  }
}
