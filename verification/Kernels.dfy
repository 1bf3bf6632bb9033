/** System calls that read: any outcome the calls may have, chosen freely. */
module Kernels {
  import opened Bytes

  /** The operating system's side of one descriptor. */
  class Kernel {
    var incoming: seq<byte>        // arrived, not yet read
    ghost var handed: seq<byte>    // read so far
    ghost var calls: nat
    ghost var lastRoom: int

    constructor (stream: seq<byte>)
      ensures incoming == stream && handed == [] && calls == 0
    {
      incoming, handed, calls, lastRoom := stream, [], 0, 0;
    }

    /** `real_read`: any error, an end of file, or any positive number of the bytes that have arrived. */
    method Read(buf: array<byte>, at: nat, room: nat) returns (r: int)
      requires at + room <= buf.Length
      modifies this, buf
      ensures calls == old(calls) + 1 && lastRoom == room
      ensures r <= room && r <= |old(incoming)|
      ensures r > 0 ==>
                && handed == old(handed) + old(incoming)[..r] && incoming == old(incoming)[r..]
                && buf[at..at + r] == old(incoming)[..r]
      ensures buf[..at] == old(buf[..at])
      ensures r <= 0 ==> handed == old(handed) && incoming == old(incoming)
    {
      r :| -1 <= r <= room && r <= |incoming|;
      if r > 0 {
        MemCpy(buf, at, incoming[..r]);
        assert buf[..at] == buf[..][..at] && buf[at..at + r] == buf[..][at..at + r];
        handed, incoming := handed + incoming[..r], incoming[r..];
      }
      calls, lastRoom := calls + 1, room;
    }
  }
}
