/** The cache of ready descriptors that `select` hands out one at a time. */
module Select {

  datatype Kind = ForRead | ForWrite | ForExcept

  /** The three `fd_set`s of a call. */
  datatype Sets = Sets(read: set<int>, write: set<int>, except: set<int>) {
    function Of(k: Kind): set<int> {
      match k case ForRead => read case ForWrite => write case ForExcept => except
    }

    predicate Has(i: int, k: Kind) { i in Of(k) }

    function Union(other: Sets): Sets {
      Sets(read + other.read, write + other.write, except + other.except)
    }

    predicate Within(other: Sets) { read <= other.read && write <= other.write && except <= other.except }

    function Count(): nat { |read| + |write| + |except| }
  }

  const NoSets := Sets({}, {}, {})

  function Only(i: int, k: Kind): Sets {
    Sets(if k == ForRead then {i} else {}, if k == ForWrite then {i} else {}, if k == ForExcept then {i} else {})
  }

  function Without(s: Sets, i: int, k: Kind): Sets {
    Sets(if k == ForRead then s.read - {i} else s.read,
         if k == ForWrite then s.write - {i} else s.write,
         if k == ForExcept then s.except - {i} else s.except)
  }

  function Rank(i: int, k: Kind): int {
    3 * i + match k case ForRead => 0 case ForWrite => 1 case ForExcept => 2
  }

  /** (i, k) is the first entry below `n`: lowest descriptor, then read before write before except. */
  ghost predicate IsFirst(s: Sets, n: nat, i: int, k: Kind) {
    0 <= i < n && s.Has(i, k) && forall j, l | 0 <= j < n && s.Has(j, l) :: Rank(i, k) <= Rank(j, l)
  }

  ghost predicate NoneBelow(s: Sets, n: nat) {
    forall i, k | 0 <= i < n :: !s.Has(i, k)
  }

  function Both(a: Sets, b: Sets): Sets {
    Sets(a.read * b.read, a.write * b.write, a.except * b.except)
  }

  /** What `select(2)` may answer: an error, a timeout, or a positive number of requested entries. */
  ghost predicate OsAnswer(n: nat, want: Sets, r: int, ready: Sets) {
    r > 0 ==>
      && ready.Within(want)
      && (forall i, k | ready.Has(i, k) :: 0 <= i < n)
      && ready.Count() == r
  }

  /**
    One call: it found the cache as `before` and left it as `after`, and returned `r` with `out`
    in the three sets and `fd` as the descriptor found.
   */
  ghost predicate SelectDid(before: Sets, n: nat, want: Sets, osR: int, ready: Sets,
                            after: Sets, r: int, out: Sets, fd: int) {
    if !NoneBelow(Both(before, want), n) then
      r == 1 && exists k :: IsFirst(Both(before, want), n, fd, k) && out == Only(fd, k) && after == Without(before, fd, k)
    else if osR > 0 then
      && after == before.Union(ready)
      && r == 1 && exists k :: IsFirst(after, n, fd, k) && out == Only(fd, k)
    else
      after == before && r == osR && fd == -1 && out == ready
  }

  class SelectCache {
    var read: set<int>
    var write: set<int>
    var except: set<int>

    function Cached(): Sets
      reads this
    {
      Sets(read, write, except)
    }

    constructor ()
      ensures Cached() == NoSets
    {
      read, write, except := {}, {}, {};
    }

    method SetReadable(s: int)
      modifies this
      ensures Cached() == old(Cached()).Union(Only(s, ForRead))
    {
      read := read + {s};
    }

    method ClearReadable(s: int)
      modifies this
      ensures Cached() == Without(old(Cached()), s, ForRead)
    {
      read := read - {s};
    }

    /** `osR` and `ready` are what the real select answers, should it be called. */
    method SpeakSelect(n: nat, want: Sets, osR: int, ready: Sets) returns (r: int, out: Sets, fd: int)
      requires OsAnswer(n, want, osR, ready)
      modifies this
      ensures SelectDid(old(Cached()), n, want, osR, ready, Cached(), r, out, fd)
    {
      ghost var before := Cached();
      for i := 0 to n
        invariant Cached() == before
        invariant NoneBelow(Both(before, want), i)
      {
        if i in want.read && i in read {
          read := read - {i};
          assert IsFirst(Both(before, want), n, i, ForRead);
          return 1, Sets({i}, {}, {}), i;
        }
        if i in want.write && i in write {
          write := write - {i};
          assert IsFirst(Both(before, want), n, i, ForWrite);
          return 1, Sets({}, {i}, {}), i;
        }
        if i in want.except && i in except {
          except := except - {i};
          assert IsFirst(Both(before, want), n, i, ForExcept);
          return 1, Sets({}, {}, {i}), i;
        }
      }

      if osR <= 0 {
        return osR, ready, -1;
      }
      for i := 0 to n
        invariant read == before.read + set j | j in ready.read && 0 <= j < i
        invariant write == before.write + set j | j in ready.write && 0 <= j < i
        invariant except == before.except + set j | j in ready.except && 0 <= j < i
      {
        if i in ready.read { read := read + {i}; }
        if i in ready.write { write := write + {i}; }
        if i in ready.except { except := except + {i}; }
      }
      assert ready.read == set j | j in ready.read && 0 <= j < n by {
        forall j | j in ready.read ensures 0 <= j < n { assert ready.Has(j, ForRead); }
      }
      assert ready.write == set j | j in ready.write && 0 <= j < n by {
        forall j | j in ready.write ensures 0 <= j < n { assert ready.Has(j, ForWrite); }
      }
      assert ready.except == set j | j in ready.except && 0 <= j < n by {
        forall j | j in ready.except ensures 0 <= j < n { assert ready.Has(j, ForExcept); }
      }
      assert Cached() == before.Union(ready);

      for i := 0 to n
        invariant Cached() == before.Union(ready)
        invariant NoneBelow(Cached(), i)
      {
        if i in read {
          assert IsFirst(Cached(), n, i, ForRead);
          return 1, Sets({i}, {}, {}), i;
        }
        if i in write {
          assert IsFirst(Cached(), n, i, ForWrite);
          return 1, Sets({}, {i}, {}), i;
        }
        if i in except {
          assert IsFirst(Cached(), n, i, ForExcept);
          return 1, Sets({}, {}, {i}), i;
        }
      }
      SomethingReady(n, want, osR, ready, before);
      assert false;
    }
  }

  /** Entries come in the order of descriptors, and of one descriptor reading, writing, exceptions. */
  lemma RankOrder(i: int, k: Kind, j: int, l: Kind)
    ensures Rank(i, k) <= Rank(j, l) <==> i < j || (i == j && (k == l || k == ForRead || l == ForExcept))
  {
  }

  lemma SomethingReady(n: nat, want: Sets, r: int, ready: Sets, cached: Sets)
    requires OsAnswer(n, want, r, ready) && r > 0
    ensures !NoneBelow(cached.Union(ready), n)
  {
    if |ready.read| > 0 {
      var i := Member(ready.read);
      assert ready.Has(i, ForRead) && cached.Union(ready).Has(i, ForRead);
    } else if |ready.write| > 0 {
      var i := Member(ready.write);
      assert ready.Has(i, ForWrite) && cached.Union(ready).Has(i, ForWrite);
    } else {
      var i := Member(ready.except);
      assert ready.Has(i, ForExcept) && cached.Union(ready).Has(i, ForExcept);
    }
  }

  lemma Member<T>(s: set<T>) returns (i: T)
    requires |s| > 0
    ensures i in s
  {
    i :| i in s;
  }

  /**
    A positive answer sets exactly one bit, and every entry that was cached, or that the OS
    reported when it was asked, is still cached or is the one handed back.
   */
  lemma SelectConserves(before: Sets, n: nat, want: Sets, osR: int, ready: Sets, after: Sets, r: int, out: Sets, fd: int)
    requires SelectDid(before, n, want, osR, ready, after, r, out, fd)
    ensures r > 0 ==> out.Count() == 1
    ensures forall i, k | before.Has(i, k) :: after.Has(i, k) || (r > 0 && out.Has(i, k))
    ensures NoneBelow(Both(before, want), n) && osR > 0 ==> forall i, k | ready.Has(i, k) :: after.Has(i, k)
  {
  }

  /**
    When the OS had to be asked, the entry handed back is one it reported if and only if no older
    cached entry below `n` comes before the first one it reported.
   */
  lemma AnswersTheQuestion(before: Sets, n: nat, want: Sets, osR: int, ready: Sets, after: Sets, r: int, out: Sets,
                           fd: int, j: int, l: Kind)
    requires SelectDid(before, n, want, osR, ready, after, r, out, fd)
    requires NoneBelow(Both(before, want), n) && osR > 0 && IsFirst(ready, n, j, l)
    ensures out.Within(ready) <==> forall i, k | 0 <= i < n && before.Has(i, k) :: Rank(j, l) <= Rank(i, k)
  {
    var k :| IsFirst(after, n, fd, k) && out == Only(fd, k);
    assert out.Has(fd, k);
    assert after.Has(j, l);
    if out.Within(ready) {
      assert ready.Has(fd, k);
      assert Rank(fd, k) == Rank(j, l);
      forall i, m | 0 <= i < n && before.Has(i, m) ensures Rank(j, l) <= Rank(i, m) {
        assert after.Has(i, m);
      }
    }
  }

  /** A caller that asks only about reading descriptor 5 is handed descriptor 3 for writing. */
  lemma StaleEntryAnswersFirst(after: Sets, r: int, out: Sets, fd: int)
    requires SelectDid(Sets({}, {3}, {}), 8, Sets({5}, {}, {}), 1, Sets({5}, {}, {}), after, r, out, fd)
    ensures fd == 3 && out == Only(3, ForWrite)
  {
    var before, want := Sets({}, {3}, {}), Sets({5}, {}, {});
    assert NoneBelow(Both(before, want), 8);
    var k :| IsFirst(after, 8, fd, k) && out == Only(fd, k);
    assert after.Has(3, ForWrite) && after.Has(fd, k);
    assert Rank(fd, k) <= Rank(3, ForWrite);
  }

  /**
    What the OS reported is handed out again by the next call that asks for it, without asking the
    OS: the real select leaves its answer in the cache.
   */
  lemma AnsweredTwice(before: Sets, n: nat, want: Sets, osR: int, ready: Sets, mid: Sets, r: int, out: Sets, fd: int,
                      osR': int, ready': Sets, after: Sets, r': int, out': Sets, fd': int)
    requires SelectDid(before, n, want, osR, ready, mid, r, out, fd)
    requires NoneBelow(Both(before, want), n) && osR > 0
    requires SelectDid(mid, n, out, osR', ready', after, r', out', fd')
    ensures r' == 1 && fd' == fd && out' == out && after == Without(mid, fd, if fd in out.read then ForRead else if fd in out.write then ForWrite else ForExcept)
  {
    var k :| IsFirst(mid, n, fd, k) && out == Only(fd, k);
    assert Both(mid, out) == out;
    assert out.Has(fd, k);
    var k' :| IsFirst(Both(mid, out), n, fd', k') && out' == Only(fd', k') && after == Without(mid, fd', k');
    assert out.Has(fd', k');
  }
}
