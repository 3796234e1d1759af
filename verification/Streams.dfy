/**
 The two ends of a QUIC stream as objects.  The network delivers bytes in chunks
 of its own choosing, and a write can fail after any part of it went out.
 */
module Streams {
  import opened Wrappers
  import opened Framing

  function Flatten(chunks: seq<seq<Byte>>): seq<Byte> {
    if chunks == [] then [] else chunks[0] + Flatten(chunks[1..])
  }

  lemma FlattenOne(a: seq<Byte>)
    ensures Flatten([a]) == a
  {
    var none: seq<seq<Byte>> := [];
    assert [a][1..] == none;
  }

  lemma Associative(a: seq<Byte>, b: seq<Byte>, c: seq<Byte>)
    ensures (a + b) + c == a + (b + c)
  {
  }

  lemma FlattenFirst(chunks: seq<seq<Byte>>, more: seq<seq<Byte>>)
    requires chunks != []
    ensures Flatten(chunks + more) == chunks[0] + Flatten(chunks[1..] + more)
  {
    assert (chunks + more)[1..] == chunks[1..] + more;
  }

  /** However the chunks are grouped, they deliver the same bytes. */
  lemma {:induction false} FlattenAppend(a: seq<seq<Byte>>, b: seq<seq<Byte>>)
    ensures Flatten(a + b) == Flatten(a) + Flatten(b)
  {
    if a == [] {
      assert a + b == b;
    } else {
      assert Flatten(a) == a[0] + Flatten(a[1..]);
      hide *;
      FlattenAppend(a[1..], b);
      FlattenFirst(a, b);
      Associative(a[0], Flatten(a[1..]), Flatten(b));
    }
  }

  /** quinn's `read_exact` under a timeout. */
  datatype ReadExactResult = Filled(data: seq<Byte>) | FinishedEarly(got: nat) | ReadFailed | TimedOut

  class RecvStream {
    var chunks: seq<seq<Byte>>
    const end: End

    ghost function Bytes(): seq<Byte>
      reads this
    {
      Flatten(chunks)
    }

    constructor (chunks: seq<seq<Byte>>, end: End)
      ensures Bytes() == Flatten(chunks) && this.end == end
    {
      this.chunks := chunks;
      this.end := end;
    }

    /** Fill a buffer of `n` bytes, whatever the chunks: the result depends on the bytes and the end alone. */
    method ReadExact(n: nat) returns (result: ReadExactResult)
      modifies this
      ensures |old(Bytes())| >= n ==> result == Filled(old(Bytes())[..n]) && Bytes() == old(Bytes())[n..]
      ensures |old(Bytes())| < n ==>
                result == match end
                          case Fin => FinishedEarly(|old(Bytes())|)
                          case Reset => ReadFailed
                          case Stalled => TimedOut
    {
      var data: seq<Byte> := [];
      while |data| < n && chunks != []
        invariant |data| <= n && data + Bytes() == old(Bytes())
        decreases |chunks|, n - |data|
      {
        var chunk, wanted := chunks[0], n - |data|;
        if |chunk| <= wanted {
          data, chunks := data + chunk, chunks[1..];
        } else {
          ghost var rest := Flatten(chunks[1..]);
          chunks := [chunk[wanted..]] + chunks[1..];
          data := data + chunk[..wanted];
          assert chunk[..wanted] + (chunk[wanted..] + rest) == chunk + rest;
        }
      }
      if |data| == n {
        return Filled(data);
      }
      match end {
        case Fin => return FinishedEarly(|data|);
        case Reset => return ReadFailed;
        case Stalled => return TimedOut;
      }
    }
  }

  /** What a stream that lets `room` bytes through has passed on of `bytes`. */
  function UpTo(bytes: seq<Byte>, room: nat): (passed: seq<Byte>)
    ensures passed <= bytes && |passed| == if |bytes| <= room then |bytes| else room
  {
    if |bytes| <= room then bytes else bytes[..room]
  }

  /** A write that is continued: what went out of the first part does not depend on the second. */
  lemma UpToAppend(first: seq<Byte>, second: seq<Byte>, room: nat)
    ensures |first| > room ==> UpTo(first + second, room) == UpTo(first, room)
    ensures |first| <= room ==> UpTo(first, room) == first
  {
  }

  /**
   The peer lets `room` bytes through before the stream fails, by an error or, if `late`, by the
   timeout; `closed` says that finishing the stream will fail.
   */
  class SendStream {
    var written: seq<Byte>
    var finished: bool
    const room: nat
    const late: bool
    const closed: bool

    constructor (room: nat, late: bool, closed: bool)
      ensures written == [] && !finished
      ensures this.room == room && this.late == late && this.closed == closed
    {
      written, finished := [], false;
      this.room, this.late, this.closed := room, late, closed;
    }

    /** `write_all` under a timeout: all of `data`, or an error after as much of it as there was room for. */
    method WriteAll(data: seq<Byte>) returns (error: Option<Error>)
      requires |written| <= room
      modifies this`written
      ensures written == UpTo(old(written) + data, room)
      ensures error == if |old(written) + data| <= room then None else Some(if late then IdleTimeout else WriteFailed)
    {
      var sent := if |written| + |data| <= room then |data| else room - |written|;
      written := written + data[..sent];
      error := if sent < |data| then Some(if late then IdleTimeout else WriteFailed) else None;
    }

    /** `finish` queues the FIN. */
    method Finish() returns (error: Option<Error>)
      modifies this`finished
      ensures if closed then error == Some(FinishFailed) && finished == old(finished) else error == None && finished
    {
      if closed {
        return Some(FinishFailed);
      }
      finished := true;
      error := None;
    }
  }
}
