/** The readiness a read leaves behind, and the selects that come after it (vfd.c). */
module Hints {
  import opened ReadBooks
  import opened Select
  import opened VirtualRead

  /** The call is answered from the cache alone. */
  ghost predicate FromCache(cached: Sets, n: nat, want: Sets) { !NoneBelow(Both(cached, want), n) }

  /** A select about reading one descriptor asks the system if and only if the descriptor is not cached. */
  lemma AskedIffNotCached(cached: Sets, n: nat, fd: nat)
    requires fd < n
    ensures FromCache(cached, n, Only(fd, ForRead)) <==> cached.Has(fd, ForRead)
  {
    var both := Both(cached, Only(fd, ForRead));
    if cached.Has(fd, ForRead) { assert both.Has(fd, ForRead); }
  }

  /**
    Right after a read, a select about reading that descriptor is answered without the system exactly
    when the next read needs none.
   */
  lemma SelectAfterRead(b: Books, fd: nat, cached: Sets, n: nat)
    requires fd < n
    ensures FromCache(Hint(b, fd, cached), n, Only(fd, ForRead)) <==> b.Buffered()
  {
    AskedIffNotCached(Hint(b, fd, cached), n, fd);
  }

  /** Whatever else a select asks about, while bytes are buffered it is answered without the system, with something it asked for. */
  lemma BufferedIsAnswered(b: Books, fd: nat, cached: Sets, n: nat, want: Sets, osR: int, ready: Sets,
                           after: Sets, r: int, out: Sets, found: int)
    requires b.Buffered() && fd < n && want.Has(fd, ForRead)
    requires SelectDid(Hint(b, fd, cached), n, want, osR, ready, after, r, out, found)
    ensures FromCache(Hint(b, fd, cached), n, want) && r == 1 && out.Count() == 1 && out.Within(want) && found <= fd
  {
    var before := Hint(b, fd, cached);
    assert Both(before, want).Has(fd, ForRead);
    var k :| IsFirst(Both(before, want), n, found, k) && out == Only(found, k);
    assert Rank(found, k) <= Rank(fd, ForRead);
  }

  /**
    But the hint is good for one select: when that one hands the descriptor back and the application
    selects again before it reads, the system is asked, and a timeout is passed on although the bytes
    are still buffered.
   */
  lemma HintIsUsedUp(b: Books, fd: nat, cached: Sets, n: nat, osR: int, ready: Sets, mid: Sets, r: int, out: Sets, found: int,
                     osR': int, ready': Sets, after: Sets, r': int, out': Sets, found': int)
    requires b.Buffered() && fd < n
    requires SelectDid(Hint(b, fd, cached), n, Only(fd, ForRead), osR, ready, mid, r, out, found)
    requires SelectDid(mid, n, Only(fd, ForRead), osR', ready', after, r', out', found')
    ensures r == 1 && found == fd && out == Only(fd, ForRead) && !FromCache(mid, n, Only(fd, ForRead))
    ensures osR' <= 0 ==> r' == osR' && out' == ready' && found' == -1
  {
    var before := Hint(b, fd, cached);
    AskedIffNotCached(before, n, fd);
    var k :| IsFirst(Both(before, Only(fd, ForRead)), n, found, k) && out == Only(found, k) && mid == Without(before, found, k);
    assert Both(before, Only(fd, ForRead)).Has(found, k);
    assert found == fd && k == ForRead;
    AskedIffNotCached(mid, n, fd);
  }
}
