/**
  A processor described by function values.  The buffer code is proved against these, so that none
  of its bookkeeping depends on how any processor is defined; `Means` says they are the real ones.
 */
module References {
  import opened Bytes
  import opened Protocols

  const VBUFSIZE := 65536

  /** The first state of the processor bound to a descriptor, its step and its run over a buffer. */
  datatype Reference = Reference(
    first: PState,
    step: (PState, seq<byte>) -> Step<PState>,
    drain: (PState, seq<byte>) -> Drained)

  ghost predicate Means(ref: Reference) {
    && Reachable(ref.first)
    && (forall s, b {:trigger PPStep(s, b)} | Reachable(s) && b != [] :: ref.step(s, b) == PPStep(s, b))
    && (forall s, b {:trigger Drain(s, b)} | Reachable(s) :: ref.drain(s, b) == Drain(s, b))
  }

  lemma ReferenceFrom(st: PState) returns (ref: Reference)
    requires IsInit(st)
    ensures Means(ref) && ref.first == st
  {
    ref := Reference(st, (s, b) => if Reachable(s) && b != [] then PPStep(s, b) else More,
                     (s, b) => if Reachable(s) then Drain(s, b) else Drained(false, s, b, []));
  }

  /** One turn of the run, in terms of the function values. */
  lemma Unfold(ref: Reference, st: PState, buf: seq<byte>)
    requires Means(ref) && Reachable(st)
    ensures buf == [] ==> ref.drain(st, buf) == Drained(true, st, [], [])
    ensures buf != [] ==>
              match ref.step(st, buf)
              case More => ref.drain(st, buf) == Drained(true, st, buf, [])
              case Died => ref.drain(st, buf) == Drained(false, st, buf, [])
              case Took(n, next, events) =>
                && 0 < n <= |buf| && Reachable(next)
                && ref.drain(st, buf) == Prepend(events, ref.drain(next, buf[n..]))
  {
    assert ref.drain(st, buf) == Drain(st, buf);
    if buf != [] {
      assert ref.step(st, buf) == PPStep(st, buf);
      match PPStep(st, buf)
      case Took(n, next, events) => assert ref.drain(next, buf[n..]) == Drain(next, buf[n..]);
      case _ =>
    }
  }
}
