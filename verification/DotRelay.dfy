/**
 One direction of the DoT relay (src/readers/dot.rs): copy bytes until the
 reader's end, under a timeout that starts afresh with every operation.
 */
module DotRelay {
  import opened Framing

  const BUFFER_SIZE: nat := 16384

  /** What one `read` of the transfer does and how long it takes; no data means the peer's FIN. */
  datatype Read = Read(delay: nat, data: seq<Byte>) | ReadFails(delay: nat)

  /** What one `write_all`, or the final `shutdown`, does: on failure some part went out first. */
  datatype Write = Write(delay: nat) | WriteFails(delay: nat, sent: nat)

  /** How the two peers behave, operation by operation.  An operation beyond the list never completes. */
  datatype Peers = Peers(incoming: seq<Read>, outgoing: seq<Write>, close: Write)

  datatype Outcome = Ok(total: nat) | Timeout | IoError

  ghost predicate Buffered(p: Peers) {
    forall i :: 0 <= i < |p.incoming| && p.incoming[i].Read? ==> |p.incoming[i].data| <= BUFFER_SIZE
  }

  /** What the reader delivers: all data before its FIN or failure. */
  function Input(incoming: seq<Read>): seq<Byte> {
    if incoming == [] || incoming[0].ReadFails? || incoming[0].data == [] then []
    else incoming[0].data + Input(incoming[1..])
  }

  // ----- which transfers complete -----

  predicate InTime(w: Write, idle: nat) {
    w.Write? && w.delay <= idle
  }

  /** The first `n` reads deliver data, and they and their writes each meet the timeout. */
  ghost predicate Progresses(p: Peers, idle: nat, n: nat) {
    && n <= |p.incoming| && n <= |p.outgoing|
    && forall i :: 0 <= i < n ==>
         && p.incoming[i].Read? && p.incoming[i].data != [] && p.incoming[i].delay <= idle
         && InTime(p.outgoing[i], idle)
  }

  /** Then comes FIN, in time, and the half-close succeeds, in time. */
  ghost predicate CompletesAfter(p: Peers, idle: nat, n: nat) {
    && Progresses(p, idle, n)
    && n < |p.incoming| && p.incoming[n] == Read(p.incoming[n].delay, []) && p.incoming[n].delay <= idle
    && InTime(p.close, idle)
  }

  ghost predicate Completes(p: Peers, idle: nat) {
    exists n: nat :: CompletesAfter(p, idle, n)
  }

  function DelayOf(incoming: seq<Read>, outgoing: seq<Write>, n: nat): nat
    requires n <= |incoming| && n <= |outgoing|
  {
    if n == 0 then 0 else DelayOf(incoming, outgoing, n - 1) + incoming[n - 1].delay + outgoing[n - 1].delay
  }

  lemma {:induction false} InputAfter(incoming: seq<Read>, n: nat)
    requires n < |incoming|
    requires forall i :: 0 <= i < n ==> incoming[i].Read? && incoming[i].data != []
    ensures Input(incoming) == Input(incoming[..n]) + Input(incoming[n..])
  {
    if n == 0 {
      assert incoming[0..] == incoming;
    } else {
      assert incoming[1..][..n - 1] == incoming[..n][1..];
      assert incoming[1..][n - 1..] == incoming[n..];
      InputAfter(incoming[1..], n - 1);
    }
  }

  lemma {:induction false} InputMore(incoming: seq<Read>, n: nat)
    requires n < |incoming|
    requires forall i :: 0 <= i <= n ==> incoming[i].Read? && incoming[i].data != []
    ensures Input(incoming[..n + 1]) == Input(incoming[..n]) + incoming[n].data
  {
    InputAfter(incoming[..n + 1], n);
    assert incoming[..n + 1][..n] == incoming[..n];
    assert incoming[..n + 1][n..] == [incoming[n]];
    var none: seq<Read> := [];
    assert [incoming[n]][1..] == none;
  }

  /** How the transfer ends once `n` rounds have succeeded and the next operation does not. */
  ghost predicate StopsAfter(p: Peers, idle: nat, n: nat, outcome: Outcome) {
    && Progresses(p, idle, n)
    && if n == |p.incoming| then outcome == Timeout
       else
         var read := p.incoming[n];
         if read.delay > idle then outcome == Timeout
         else if read.ReadFails? then outcome == IoError
         else if read.data == [] then
           !InTime(p.close, idle) && outcome == if p.close.delay > idle then Timeout else IoError
         else if n == |p.outgoing| then outcome == Timeout
         else !InTime(p.outgoing[n], idle) && outcome == if p.outgoing[n].delay > idle then Timeout else IoError
  }

  class Writer {
    var written: seq<Byte>
    var closed: bool

    constructor ()
      ensures written == [] && !closed
    {
      written, closed := [], false;
    }
  }

  /**
   relay_direction.  The output is always a prefix of the input.  The call succeeds exactly if every
   single operation meets the idle timeout, however many there are; it has then copied and counted
   the whole input and closed the writer.  Otherwise the first operation that does not succeed in time
   decides the error, after all that was read before it has been written.
   */
  method RelayDirection(p: Peers, writer: Writer, idle: nat) returns (outcome: Outcome, n: nat)
    requires Buffered(p) && writer.written == [] && !writer.closed
    modifies writer
    ensures writer.written <= Input(p.incoming)
    ensures outcome.Ok? <==> Completes(p, idle)
    ensures outcome.Ok? ==> writer.written == Input(p.incoming) && outcome.total == |Input(p.incoming)| && writer.closed
    ensures !outcome.Ok? ==> !writer.closed && StopsAfter(p, idle, n, outcome)
    ensures !outcome.Ok? ==> n <= |p.incoming| && n <= |p.outgoing|
    ensures !outcome.Ok? && n == |p.incoming| ==> outcome == Timeout
    ensures !outcome.Ok? && n < |p.incoming| ==>
              var read := p.incoming[n];
              && (read.delay > idle ==> outcome == Timeout)
              && (read.delay <= idle && read.ReadFails? ==> outcome == IoError)
              && (read.delay <= idle && read == Read(read.delay, []) ==>
                    outcome == (if p.close.delay > idle then Timeout else IoError)
                    && (p.close.delay > idle || p.close.WriteFails?))
              && (read.delay <= idle && read.Read? && read.data != [] ==>
                    if n == |p.outgoing| || p.outgoing[n].delay > idle then outcome == Timeout
                    else outcome == IoError && p.outgoing[n].WriteFails?)
    ensures !outcome.Ok? ==> Input(p.incoming[..n]) <= writer.written
    ensures !outcome.Ok? && n < |p.incoming| ==> writer.written <= Input(p.incoming[..n + 1])
  {
    var total := 0;
    n := 0;
    assert Input(p.incoming[..0]) == [];
    hide Input, Completes;
    while n < |p.incoming|
      invariant Progresses(p, idle, n) && !writer.closed
      invariant writer.written == Input(p.incoming[..n]) && total == |writer.written|
    {
      OneMoreRead(p.incoming, n);
      var read := p.incoming[n];
      if read.delay > idle || read.ReadFails? {
        NeverCompletes(p, idle, n);
        return (if read.delay > idle then Timeout else IoError), n;
      }
      if read.data == [] {
        if !InTime(p.close, idle) {
          CloseFails(p, idle);
          return (if p.close.delay > idle then Timeout else IoError), n;
        }
        writer.closed := true;
        ClosedCompletes(p, idle, n);
        return Ok(total), n;
      }
      if n >= |p.outgoing| || !InTime(p.outgoing[n], idle) {
        var sent := if n < |p.outgoing| && p.outgoing[n].WriteFails? && p.outgoing[n].sent <= |read.data|
                    then p.outgoing[n].sent else 0;
        writer.written := writer.written + read.data[..sent];
        NeverCompletes(p, idle, n);
        return (if n >= |p.outgoing| || p.outgoing[n].delay > idle then Timeout else IoError), n;
      }
      writer.written := writer.written + read.data;
      total := total + |read.data|;
      n := n + 1;
    }
    assert p.incoming[..n] == p.incoming;
    NeverCompletesUnended(p, idle);
    outcome := Timeout;
  }

  /** What the next read adds to the input. */
  lemma OneMoreRead(incoming: seq<Read>, n: nat)
    requires n < |incoming|
    requires forall i :: 0 <= i < n ==> incoming[i].Read? && incoming[i].data != []
    ensures Input(incoming[..n]) <= Input(incoming) && Input(incoming[..n]) <= Input(incoming[..n + 1])
    ensures if incoming[n].Read? && incoming[n].data != []
            then Input(incoming[..n + 1]) == Input(incoming[..n]) + incoming[n].data <= Input(incoming)
            else Input(incoming) == Input(incoming[..n])
  {
    InputAfter(incoming, n);
    GrowsTo(incoming, n);
    assert incoming[n..][0] == incoming[n];
    if incoming[n].Read? && incoming[n].data != [] {
      InputMore(incoming, n);
      assert Input(incoming[n..]) == incoming[n].data + Input(incoming[n..][1..]);
    }
  }

  lemma ClosedCompletes(p: Peers, idle: nat, n: nat)
    requires CompletesAfter(p, idle, n)
    ensures Completes(p, idle)
  {
  }

  lemma CloseFails(p: Peers, idle: nat)
    requires !InTime(p.close, idle)
    ensures !Completes(p, idle)
  {
  }

  lemma GrowsTo(incoming: seq<Read>, n: nat)
    requires n < |incoming|
    requires forall i :: 0 <= i < n ==> incoming[i].Read? && incoming[i].data != []
    ensures Input(incoming[..n]) <= Input(incoming[..n + 1])
  {
    InputAfter(incoming[..n + 1], n);
    assert incoming[..n + 1][..n] == incoming[..n];
  }

  lemma NeverCompletes(p: Peers, idle: nat, n: nat)
    requires Progresses(p, idle, n) && n < |p.incoming|
    requires p.incoming[n].delay > idle || p.incoming[n].ReadFails?
             || (p.incoming[n].data != [] && (n >= |p.outgoing| || !InTime(p.outgoing[n], idle)))
    ensures !Completes(p, idle)
  {
    forall m: nat ensures !CompletesAfter(p, idle, m) {
    }
  }

  /** Without a FIN the transfer cannot complete. */
  lemma NeverCompletesUnended(p: Peers, idle: nat)
    requires Progresses(p, idle, |p.incoming|)
    ensures !Completes(p, idle)
  {
    forall m: nat ensures !CompletesAfter(p, idle, m) {
    }
  }

  // ----- the timeout is per operation -----

  function Steady(idle: nat, n: nat, data: seq<Byte>): Peers {
    Peers(seq(n, i => Read(idle, data)) + [Read(idle, [])], seq(n, i => Write(idle)), Write(idle))
  }

  lemma {:induction false} SteadyDelay(idle: nat, n: nat, data: seq<Byte>, k: nat)
    requires k <= n
    ensures DelayOf(Steady(idle, n, data).incoming, Steady(idle, n, data).outgoing, k) == 2 * idle * k
  {
    if k > 0 {
      SteadyDelay(idle, n, data, k - 1);
      assert Steady(idle, n, data).incoming[k - 1] == Read(idle, data);
      assert 2 * idle * k == 2 * idle * (k - 1) + 2 * idle;
    }
  }

  /** A transfer of any total duration completes if every single operation meets the idle timeout. */
  lemma LongTransfersComplete(idle: nat, duration: nat, data: seq<Byte>) returns (p: Peers, n: nat)
    requires idle > 0 && 0 < |data| <= BUFFER_SIZE
    ensures Buffered(p) && Completes(p, idle)
    ensures n <= |p.incoming| && n <= |p.outgoing| && DelayOf(p.incoming, p.outgoing, n) > duration
  {
    n := duration + 1;
    p := Steady(idle, n, data);
    assert CompletesAfter(p, idle, n);
    SteadyDelay(idle, n, data, n);
    assert 2 * idle * n >= n;
  }

  /** One operation that exceeds the timeout, or fails, fails the transfer, however fast the rest is. */
  lemma OneBadOperationFails(p: Peers, idle: nat, i: nat)
    requires i < |p.incoming| && forall j :: 0 <= j < i ==> p.incoming[j].Read? && p.incoming[j].data != []
    requires
      || p.incoming[i].delay > idle || p.incoming[i].ReadFails?
      || (p.incoming[i].data == [] && (p.close.delay > idle || p.close.WriteFails?))
      || (p.incoming[i].data != [] && i < |p.outgoing| && (p.outgoing[i].delay > idle || p.outgoing[i].WriteFails?))
    ensures !Completes(p, idle)
  {
    forall m: nat ensures !CompletesAfter(p, idle, m) {
    }
  }

  /** And a transfer all of whose operations succeed in time completes. */
  lemma AllGoodCompletes(p: Peers, idle: nat, n: nat)
    requires n < |p.incoming| && n <= |p.outgoing|
    requires forall i :: 0 <= i < n ==>
               && p.incoming[i].Read? && p.incoming[i].data != [] && p.incoming[i].delay <= idle
               && p.outgoing[i].Write? && p.outgoing[i].delay <= idle
    requires p.incoming[n] == Read(p.incoming[n].delay, []) && p.incoming[n].delay <= idle
    requires p.close.Write? && p.close.delay <= idle
    ensures Completes(p, idle)
  {
    assert CompletesAfter(p, idle, n);
  }
}
