/**
 One DoQ transaction (src/upstream/quic.rs): exactly one query from the client,
 then the upstream's frames relayed one by one.
 */
module DoqRelay {
  import opened Wrappers
  import opened Framing
  import opened Streams

  // ----- what a well-behaved transaction looks like -----

  predicate IsDnsMessage(m: Message) {
    12 <= |m| <= MAX_DNS_MESSAGE_SIZE && m[..2] == [0, 0]
  }

  /** read_doq_query on a whole stream. */
  function QueryOf(bytes: seq<Byte>, end: End): (r: Result)
  {
    match ReadFrame(bytes, end)
    case Finished => Rejected(NoQuery)
    case Failed(e) => Rejected(e)
    case Frame(query, rest) =>
      if |query| < 12 then Rejected(ShortQuery)
      else if query[..2] != [0, 0] then Rejected(NonZeroId)
      else
        match ReadFrame(rest, end)
        case Finished => Accepted(query)
        case Failed(e) => Rejected(e)
        case Frame(_, _) => Rejected(SecondQuery)
  }

  datatype Result = Accepted(query: Message) | Rejected(error: Error)

  /** What the relay passes on of the upstream's bytes, and the error that stops it. */
  datatype Relay = Relay(frames: seq<Message>, error: Option<Error>)

  function RelayOf(bytes: seq<Byte>, end: End): Relay
    decreases |bytes|
  {
    match ReadFrame(bytes, end)
    case Finished => Relay([], None)
    case Failed(e) => Relay([], Some(e))
    case Frame(m, rest) =>
      if !IsDnsMessage(m) then Relay([], Some(BadResponse))
      else
        var more := RelayOf(rest, end);
        Relay([m] + more.frames, more.error)
  }

  ghost predicate AllDnsMessages(ms: seq<Message>) {
    forall i :: 0 <= i < |ms| ==> IsDnsMessage(ms[i])
  }

  lemma DnsMessagesAreFrameable(ms: seq<Message>)
    requires AllDnsMessages(ms)
    ensures AllFrameable(ms)
  {
    forall i | 0 <= i < |ms| ensures IsFrameable(ms[i]) {
      assert IsDnsMessage(ms[i]);
    }
  }

  // ----- the query -----

  lemma HasZeroId(m: Message)
    requires |m| >= 2
    ensures m[..2] == [0, 0] <==> m[0] == 0 && m[1] == 0
  {
    assert m[..2] == [m[0], m[1]];
  }

  /** A query is accepted exactly from a stream that is its frame and FIN, with a header and a zero ID. */
  lemma OneQueryPerStream(bytes: seq<Byte>, end: End, query: Message)
    ensures QueryOf(bytes, end) == Accepted(query)
            <==> && 12 <= |query| <= 65535 && query[0] == 0 && query[1] == 0
                 && end == Fin && bytes == Encode(query)
  {
    if |query| >= 2 {
      HasZeroId(query);
    }
    if IsDnsMessage(query) && end == Fin && bytes == Encode(query) {
      FrameRoundTrip(query, [], Fin);
      assert Encode(query) + [] == bytes;
    }
    if QueryOf(bytes, end) == Accepted(query) {
      FrameUnique(bytes, end);
      var rest := ReadFrame(bytes, end).rest;
      assert rest == [] && end == Fin;
      assert Encode(query) + [] == Encode(query);
    }
  }

  /** A stream that ends within its first frame. */
  lemma CutQuery(m: Message, p: seq<Byte>, end: End)
    requires 1 <= |m| <= 65535 && IsCut(p, m)
    ensures QueryOf(p, end)
            == Rejected(if p == [] && end == Fin then NoQuery
                        else if end == Stalled then IdleTimeout
                        else if |p| < 2 then IncompleteFrame
                        else IncompleteMessage)
  {
    CutFrame(m, p, end);
    hide ReadFrame;
  }

  /** A stream that goes on after a valid query, up to somewhere within a second frame. */
  lemma CutAfterQuery(query: Message, m: Message, p: seq<Byte>, end: End)
    requires 12 <= |query| <= 65535 && query[0] == 0 && query[1] == 0
    requires 1 <= |m| <= 65535 && IsCut(p, m)
    ensures QueryOf(Encode(query) + p, end)
            == if p == [] && end == Fin then Accepted(query)
               else Rejected(if end == Stalled then IdleTimeout
                             else if |p| < 2 then IncompleteFrame
                             else IncompleteMessage)
  {
    HasZeroId(query);
    FrameRoundTrip(query, p, end);
    CutFrame(m, p, end);
    hide ReadFrame, Encode;
  }

  /** A whole first frame that is no query, or is followed by more than FIN. */
  lemma WholeFrameRejected(m: Message, rest: seq<Byte>, end: End)
    requires 1 <= |m| <= 65535
    ensures |m| < 12 ==> QueryOf(Encode(m) + rest, end) == Rejected(ShortQuery)
    ensures |m| >= 12 && (m[0] != 0 || m[1] != 0) ==> QueryOf(Encode(m) + rest, end) == Rejected(NonZeroId)
    ensures |m| >= 12 && m[0] == 0 && m[1] == 0 && ReadFrame(rest, end).Frame? ==>
              QueryOf(Encode(m) + rest, end) == Rejected(SecondQuery)
    ensures |m| >= 12 && m[0] == 0 && m[1] == 0 && |rest| >= 2 && rest[0] == 0 && rest[1] == 0 ==>
              QueryOf(Encode(m) + rest, end) == Rejected(EmptyFrame)
  {
    if |m| >= 12 {
      HasZeroId(m);
    }
    if |rest| >= 2 && rest[0] == 0 && rest[1] == 0 {
      EmptyFrameFails(rest, end);
    }
    FrameRoundTrip(m, rest, end);
    hide ReadFrame, Encode;
  }

  /** A stream that begins with an empty frame. */
  lemma EmptyQueryRejected(p: seq<Byte>, end: End)
    requires |p| >= 2 && p[0] == 0 && p[1] == 0
    ensures QueryOf(p, end) == Rejected(EmptyFrame)
  {
    EmptyFrameFails(p, end);
    hide ReadFrame;
  }

  lemma FrameTimeout(bytes: seq<Byte>, end: End)
    ensures ReadFrame(bytes, end) == Failed(IdleTimeout) ==> end == Stalled
  {
    TimeoutMeansStalled(bytes, end);
    hide ReadFrame;
  }

  /** Only a stalled client makes the reading of its query time out. */
  lemma QueryTimeoutMeansStalled(bytes: seq<Byte>, end: End)
    ensures QueryOf(bytes, end) == Rejected(IdleTimeout) ==> end == Stalled
  {
    FrameTimeout(bytes, end);
    if ReadFrame(bytes, end).Frame? {
      FrameTimeout(ReadFrame(bytes, end).rest, end);
    }
    hide ReadFrame;
  }

  // ----- the responses -----

  lemma {:induction false} RelayedInOrder(bytes: seq<Byte>, end: End)
    ensures AllDnsMessages(RelayOf(bytes, end).frames) && AllFrameable(RelayOf(bytes, end).frames)
    ensures EncodeAll(RelayOf(bytes, end).frames) <= bytes
    ensures RelayOf(bytes, end).error.None? <==> end == Fin && EncodeAll(RelayOf(bytes, end).frames) == bytes
    decreases |bytes|
  {
    if ReadFrame(bytes, end).Frame? && IsDnsMessage(ReadFrame(bytes, end).message) {
      var Frame(m, rest) := ReadFrame(bytes, end);
      FrameUnique(bytes, end);
      RelayedInOrder(rest, end);
      var more := RelayOf(rest, end).frames;
      DnsMessagesAreFrameable([m] + more);
      assert ([m] + more)[1..] == more;
      assert EncodeAll([m] + more) == Encode(m) + EncodeAll(more);
      if EncodeAll([m] + more) == bytes {
        assert EncodeAll(more) == bytes[|Encode(m)|..] == rest;
      }
    }
  }

  /**
   The frames passed on are valid messages whose encoding is a prefix of the upstream's bytes; the
   relay ends without error exactly if they are all of them, followed by FIN.
   */
  lemma RelayIsTransparent(bytes: seq<Byte>, end: End)
    ensures AllFrameable(RelayOf(bytes, end).frames)
    ensures forall i :: 0 <= i < |RelayOf(bytes, end).frames| ==>
              var m := RelayOf(bytes, end).frames[i]; 12 <= |m| <= 65535 && m[0] == 0 && m[1] == 0
    ensures EncodeAll(RelayOf(bytes, end).frames) <= bytes
    ensures RelayOf(bytes, end).error.None? <==> end == Fin && EncodeAll(RelayOf(bytes, end).frames) == bytes
  {
    RelayedInOrder(bytes, end);
    hide RelayOf, EncodeAll, ReadFrame;
    var ms := RelayOf(bytes, end).frames;
    forall i | 0 <= i < |ms| ensures 12 <= |ms[i]| <= 65535 && ms[i][0] == 0 && ms[i][1] == 0 {
      assert IsDnsMessage(ms[i]);
      HasZeroId(ms[i]);
    }
  }

  lemma ValidMessage(m: Message)
    requires 12 <= |m| <= 65535 && m[0] == 0 && m[1] == 0
    ensures IsDnsMessage(m) && IsFrameable(m)
  {
    HasZeroId(m);
  }

  lemma ValidIsFrameable(ms: seq<Message>)
    requires forall i :: 0 <= i < |ms| ==> 12 <= |ms[i]| <= 65535 && ms[i][0] == 0 && ms[i][1] == 0
    ensures AllFrameable(ms)
  {
  }

  /** A valid message is relayed, and then the rest. */
  lemma RelayFirst(m: Message, rest: seq<Byte>, end: End)
    requires 12 <= |m| <= 65535 && m[0] == 0 && m[1] == 0
    ensures RelayOf(Encode(m) + rest, end) == Relay([m] + RelayOf(rest, end).frames, RelayOf(rest, end).error)
  {
    ValidMessage(m);
    FrameRoundTrip(m, rest, end);
    hide ReadFrame, Encode, IsDnsMessage;
  }

  /** After valid messages the relay goes on with whatever follows. */
  lemma {:induction false} RelayGoesOn(ms: seq<Message>, tail: seq<Byte>, end: End)
    requires forall i :: 0 <= i < |ms| ==> 12 <= |ms[i]| <= 65535 && ms[i][0] == 0 && ms[i][1] == 0
    ensures AllFrameable(ms)
    ensures RelayOf(EncodeAll(ms) + tail, end) == Relay(ms + RelayOf(tail, end).frames, RelayOf(tail, end).error)
  {
    ValidIsFrameable(ms);
    if ms == [] {
      NothingFirst(tail, RelayOf(tail, end).frames);
      hide RelayOf;
    } else {
      EncodeFirst(ms, tail);
      hide *;
      RelayGoesOn(ms[1..], tail, end);
      RelayFirst(ms[0], EncodeAll(ms[1..]) + tail, end);
      OneFirst(ms, RelayOf(tail, end).frames);
    }
  }

  lemma NothingFirst(tail: seq<Byte>, more: seq<Message>)
    ensures [] + tail == tail && [] + more == more
  {
  }

  lemma OneFirst(ms: seq<Message>, more: seq<Message>)
    requires ms != []
    ensures [ms[0]] + (ms[1..] + more) == ms + more
  {
  }

  /** Every sequence of valid messages is relayed in full. */
  lemma RelayComplete(ms: seq<Message>)
    requires forall i :: 0 <= i < |ms| ==> 12 <= |ms[i]| <= 65535 && ms[i][0] == 0 && ms[i][1] == 0
    ensures AllFrameable(ms) && RelayOf(EncodeAll(ms), Fin) == Relay(ms, None)
  {
    RelayGoesOn(ms, [], Fin);
    assert RelayOf([], Fin) == Relay([], None);
    hide ReadFrame, Encode, RelayOf;
    assert EncodeAll(ms) + [] == EncodeAll(ms) && ms + [] == ms;
  }

  /** The error that a cut upstream stream gives, after the valid messages before it. */
  lemma CutRelay(ms: seq<Message>, m: Message, p: seq<Byte>, end: End)
    requires forall i :: 0 <= i < |ms| ==> 12 <= |ms[i]| <= 65535 && ms[i][0] == 0 && ms[i][1] == 0
    requires 1 <= |m| <= 65535 && IsCut(p, m)
    ensures AllFrameable(ms)
    ensures RelayOf(EncodeAll(ms) + p, end)
            == Relay(ms, if p == [] && end == Fin then None
                         else if end == Stalled then Some(IdleTimeout)
                         else if |p| < 2 then Some(IncompleteFrame)
                         else Some(IncompleteMessage))
  {
    RelayGoesOn(ms, p, end);
    CutFrame(m, p, end);
    hide ReadFrame, Encode, EncodeAll, IsCut;
    assert ms + [] == ms;
  }

  /** A frame that is empty, or is no message with ID zero, ends the relay after the valid ones before it. */
  lemma BadFrameEndsRelay(ms: seq<Message>, m: Message, rest: seq<Byte>, end: End)
    requires forall i :: 0 <= i < |ms| ==> 12 <= |ms[i]| <= 65535 && ms[i][0] == 0 && ms[i][1] == 0
    requires |m| <= 65535 && (|m| < 12 || m[0] != 0 || m[1] != 0)
    ensures AllFrameable(ms)
    ensures RelayOf(EncodeAll(ms) + (Encode(m) + rest), end)
            == Relay(ms, Some(if |m| == 0 then EmptyFrame else BadResponse))
  {
    RelayGoesOn(ms, Encode(m) + rest, end);
    if |m| == 0 {
      EncodeIsBigEndian(m);
      EmptyFrameFails(Encode(m) + rest, end);
    } else {
      FrameRoundTrip(m, rest, end);
      if |m| >= 12 {
        HasZeroId(m);
      }
    }
    hide ReadFrame, Encode, EncodeAll;
    assert ms + [] == ms;
  }

  /** Only a stalled upstream makes the relay's reading time out. */
  lemma {:induction false} RelayTimeoutMeansStalled(bytes: seq<Byte>, end: End)
    ensures RelayOf(bytes, end).error == Some(IdleTimeout) ==> end == Stalled
    decreases |bytes|
  {
    FrameTimeout(bytes, end);
    if ReadFrame(bytes, end).Frame? {
      RelayTimeoutMeansStalled(ReadFrame(bytes, end).rest, end);
    }
    hide ReadFrame;
  }

  lemma EncodeOne(m: Message)
    requires IsFrameable(m)
    ensures AllFrameable([m]) && EncodeAll([m]) == Encode(m)
  {
    var none: seq<Message> := [];
    assert [m][1..] == none;
  }

  // ----- reading and writing frames -----

  /** read_doq_frame: a message, the end of the stream, or an error. */
  method ReadDoqFrame(recv: RecvStream) returns (message: Option<Message>, error: Option<Error>)
    modifies recv
    ensures match ReadFrame(old(recv.Bytes()), recv.end)
            case Frame(m, rest) => message == Some(m) && error == None && recv.Bytes() == rest
            case Finished => message == None && error == None
            case Failed(e) => message == None && error == Some(e)
  {
    message, error := None, None;
    var header := recv.ReadExact(2);
    if header == FinishedEarly(0) {
      return;
    }
    if !header.Filled? {
      error := Some(if header == TimedOut then IdleTimeout else IncompleteFrame);
      return;
    }
    ghost var bytes := old(recv.Bytes());
    assert header.data[0] == bytes[0] && header.data[1] == bytes[1];
    var length := Length(header.data[0], header.data[1]);
    if length == 0 {
      error := Some(EmptyFrame);
      return;
    }
    var body := recv.ReadExact(length);
    if !body.Filled? {
      error := Some(if body == TimedOut then IdleTimeout else IncompleteMessage);
      return;
    }
    assert bytes[2..][..length] == bytes[2..2 + length];
    assert bytes[2..][length..] == bytes[2 + length..];
    message := Some(body.data);
  }

  /** write_doq_frame: the whole frame, or an error after as much of it as there was room for. */
  method WriteDoqFrame(send: SendStream, message: Message) returns (error: Option<Error>)
    requires |send.written| <= send.room
    modifies send`written
    ensures |message| > MAX_DNS_MESSAGE_SIZE ==> error == Some(MessageTooLong) && send.written == old(send.written)
    ensures |message| <= MAX_DNS_MESSAGE_SIZE ==>
              && send.written == UpTo(old(send.written) + Encode(message), send.room)
              && error == (if |old(send.written) + Encode(message)| <= send.room then None
                           else Some(if send.late then IdleTimeout else WriteFailed))
  {
    if |message| > MAX_DNS_MESSAGE_SIZE {
      return Some(MessageTooLong);
    }
    ghost var start := send.written;
    var header: seq<Byte> := [|message| / 256, |message| % 256];
    assert start + Encode(message) == (start + header) + message;
    UpToAppend(start + header, message, send.room);
    error := send.WriteAll(header);
    if error.Some? {
      return;
    }
    error := send.WriteAll(message);
  }

  /** read_doq_query. */
  method ReadDoqQuery(recv: RecvStream) returns (result: Result)
    modifies recv
    ensures result == QueryOf(old(recv.Bytes()), recv.end)
  {
    var message, error := ReadDoqFrame(recv);
    if error.Some? {
      return Rejected(error.value);
    }
    if message.None? {
      return Rejected(NoQuery);
    }
    var query := message.value;
    if |query| < 12 {
      return Rejected(ShortQuery);
    }
    if query[..2] != [0, 0] {
      return Rejected(NonZeroId);
    }
    var second, trailing := ReadDoqFrame(recv);
    if trailing.Some? {
      return Rejected(trailing.value);
    }
    if second.Some? {
      return Rejected(SecondQuery);
    }
    result := Accepted(query);
  }

  // ----- the transaction -----

  /** What the pool and the upstream connection make of this transaction. */
  datatype Upstream =
    | NoLease(timedOut: bool)  // pool.get failed or timed out
    | NoStream(timedOut: bool) // open_bi failed or timed out
    | Opened(send: SendStream, recv: RecvStream)

  datatype Outcome = Forwarded(received: nat, sent: nat) | Aborted(error: Error)

  lemma EncodeNext(frames: seq<Message>, k: nat)
    requires AllFrameable(frames) && k < |frames|
    ensures AllFrameable(frames[..k]) && AllFrameable(frames[..k + 1])
    ensures EncodeAll(frames[..k + 1]) == EncodeAll(frames[..k]) + Encode(frames[k])
  {
    EncodeOne(frames[k]);
    var front, next := frames[..k], [frames[k]];
    assert frames[..k + 1] == front + next;
    assert AllFrameable(front);
    EncodeAllAppend(front, next);
  }

  /** If the room ends within the first frames, the later ones make no difference. */
  lemma CutWithin(frames: seq<Message>, k: nat, room: nat)
    requires AllFrameable(frames) && k <= |frames|
    ensures AllFrameable(frames[..k]) && |EncodeAll(frames[..k])| <= |EncodeAll(frames)|
    ensures |EncodeAll(frames[..k])| > room ==> UpTo(EncodeAll(frames), room) == UpTo(EncodeAll(frames[..k]), room)
  {
    var front, back := frames[..k], frames[k..];
    assert front + back == frames;
    assert AllFrameable(front) && AllFrameable(back);
    EncodeAllAppend(front, back);
    UpToAppend(EncodeAll(front), EncodeAll(back), room);
  }

  /** Reading one more acceptable frame takes the relay one frame further. */
  lemma RelayAdvances(left: seq<Byte>, end: End, frames: seq<Message>, error: Option<Error>, k: nat)
    requires k <= |frames| && RelayOf(left, end) == Relay(frames[k..], error)
    ensures ReadFrame(left, end).Frame? ==>
              if IsDnsMessage(ReadFrame(left, end).message) then
                && k < |frames| && frames[k] == ReadFrame(left, end).message
                && RelayOf(ReadFrame(left, end).rest, end) == Relay(frames[k + 1..], error)
              else k == |frames| && error == Some(BadResponse)
    ensures ReadFrame(left, end).Finished? ==> k == |frames| && error == None
    ensures ReadFrame(left, end).Failed? ==> k == |frames| && error == Some(ReadFrame(left, end).error)
  {
    if ReadFrame(left, end).Frame? {
      var Frame(m, rest) := ReadFrame(left, end);
      FrameUnique(left, end);
      if IsDnsMessage(m) {
        assert frames[k..] == [m] + RelayOf(rest, end).frames;
        assert frames[k] == frames[k..][0] == m;
        assert frames[k + 1..] == frames[k..][1..] == RelayOf(rest, end).frames;
      }
    }
  }

  /**
   Relay until the upstream's stream ends, one of its frames is unacceptable, or a write fails.  The
   client has got the acceptable frames as far as there was room for them.
   */
  method RelayResponses(upstream: RecvStream, client: SendStream) returns (sent: nat, error: Option<Error>)
    requires client.written == []
    modifies upstream, client`written
    ensures var relay := RelayOf(old(upstream.Bytes()), upstream.end);
            && AllFrameable(relay.frames)
            && client.written == UpTo(EncodeAll(relay.frames), client.room)
            && (error == if |EncodeAll(relay.frames)| <= client.room then relay.error
                         else Some(if client.late then IdleTimeout else WriteFailed))
            && (error.None? ==> sent == |client.written|)
  {
    ghost var relay, end := RelayOf(upstream.Bytes(), upstream.end), upstream.end;
    RelayIsTransparent(upstream.Bytes(), end);
    sent, error := 0, None;
    ghost var k: nat := 0;
    assert relay.frames[..0] == [] && relay.frames[0..] == relay.frames;
    hide RelayOf, ReadFrame, Encode, AllDnsMessages;
    while true
      invariant k <= |relay.frames| && AllFrameable(relay.frames[..k])
      invariant client.written == EncodeAll(relay.frames[..k]) && sent == |client.written| <= client.room
      invariant RelayOf(upstream.Bytes(), end) == Relay(relay.frames[k..], relay.error)
      decreases |upstream.Bytes()|
    {
      RelayAdvances(upstream.Bytes(), end, relay.frames, relay.error, k);
      assert k == |relay.frames| ==> relay.frames[..k] == relay.frames;
      var message, failure := ReadDoqFrame(upstream);
      if failure.Some? || message.None? {
        error := failure;
        return;
      }
      var m := message.value;
      if |m| < 12 || m[..2] != [0, 0] {
        error := Some(BadResponse);
        return;
      }
      EncodeNext(relay.frames, k);
      CutWithin(relay.frames, k + 1, client.room);
      EncodedSize(m);
      sent := sent + |m| + 2;
      error := WriteDoqFrame(client, m);
      if error.Some? {
        return;
      }
      k := k + 1;
    }
  }

  lemma EncodedSize(m: Message)
    requires |m| <= MAX_DNS_MESSAGE_SIZE
    ensures |Encode(m)| == |m| + 2
  {
  }

  /**
   forward_quic_stream.  A completed transaction has sent the client's bytes upstream and the
   upstream's bytes to the client, both unchanged and both closed.  It completes exactly if the query
   is well-formed, the upstream stream opens, every response frame is acceptable and both peers take
   all their bytes.  Whatever happens, the client has only seen a prefix of the upstream's bytes, and
   whole valid frames unless its own stream failed.
   */
  method ForwardQuicStream(client: RecvStream, clientSend: SendStream, upstream: Upstream)
    returns (outcome: Outcome, invalidated: bool)
    requires clientSend.written == [] && !clientSend.finished
    requires upstream.Opened? ==>
               && upstream.send.written == [] && !upstream.send.finished
               && upstream.send != clientSend && upstream.recv != client
    modifies client, clientSend
    modifies if upstream.Opened? then {upstream.send as object, upstream.recv} else {}
    ensures invalidated <==> QueryOf(old(client.Bytes()), client.end).Accepted? && upstream.NoStream?
    ensures QueryOf(old(client.Bytes()), client.end).Rejected? ==>
              && outcome == Aborted(QueryOf(old(client.Bytes()), client.end).error)
              && clientSend.written == []
              && (upstream.Opened? ==> upstream.send.written == [])
    ensures QueryOf(old(client.Bytes()), client.end).Accepted? && !upstream.Opened? ==>
              && outcome == Aborted(if upstream.timedOut then IdleTimeout
                                    else if upstream.NoLease? then PoolFailed else UpstreamFailed)
              && clientSend.written == []
    ensures QueryOf(old(client.Bytes()), client.end).Accepted? && upstream.Opened? ==>
              var sent, got := old(client.Bytes()), old(upstream.recv.Bytes());
              var relay := RelayOf(got, upstream.recv.end);
              && AllFrameable(relay.frames) && EncodeAll(relay.frames) <= got
              && upstream.send.written == UpTo(sent, upstream.send.room)
              && clientSend.written == (if |sent| > upstream.send.room || upstream.send.closed then []
                                        else UpTo(EncodeAll(relay.frames), clientSend.room))
              && (outcome.Forwarded? <==>
                    && |sent| <= upstream.send.room && !upstream.send.closed
                    && |EncodeAll(relay.frames)| <= clientSend.room && !clientSend.closed
                    && relay.error.None?)
              && outcome
                 == (if |sent| > upstream.send.room
                     then Aborted(if upstream.send.late then IdleTimeout else WriteFailed)
                     else if upstream.send.closed then Aborted(UpstreamFailed)
                     else if |EncodeAll(relay.frames)| > clientSend.room
                     then Aborted(if clientSend.late then IdleTimeout else WriteFailed)
                     else if relay.error.Some? then Aborted(relay.error.value)
                     else if clientSend.closed then Aborted(FinishFailed)
                     else Forwarded(|sent|, |EncodeAll(relay.frames)|))
    ensures outcome.Forwarded? ==>
              && upstream.Opened? && client.end == Fin && upstream.recv.end == Fin
              && upstream.send.written == old(client.Bytes()) && upstream.send.finished
              && clientSend.written == old(upstream.recv.Bytes()) && clientSend.finished
              && outcome.received == |old(client.Bytes())| && outcome.sent == |old(upstream.recv.Bytes())|
  {
    invalidated := false;
    ghost var bytes := client.Bytes();
    if upstream.Opened? {
      RelayIsTransparent(upstream.recv.Bytes(), upstream.recv.end);
    }
    var result := ReadDoqQuery(client);
    if result.Rejected? {
      return Aborted(result.error), invalidated;
    }
    OneQueryPerStream(bytes, client.end, result.query);
    assert bytes[2..] == result.query;
    hide RelayOf, QueryOf, EncodeAll, AllFrameable;
    match upstream {
      case NoLease(timedOut) =>
        outcome := Aborted(if timedOut then IdleTimeout else PoolFailed);
      case NoStream(timedOut) =>
        invalidated := true;
        outcome := Aborted(if timedOut then IdleTimeout else UpstreamFailed);
      case Opened(send, recv) =>
        outcome := Exchange(send, recv, clientSend, result.query);
    }
  }

  /** From the opened upstream stream to the end of the transaction. */
  method Exchange(send: SendStream, recv: RecvStream, clientSend: SendStream, query: Message)
    returns (outcome: Outcome)
    requires IsDnsMessage(query) && send != clientSend
    requires send.written == [] && clientSend.written == []
    modifies send, recv, clientSend
    ensures send.written == UpTo(Encode(query), send.room)
    ensures var relay := RelayOf(old(recv.Bytes()), recv.end);
            && AllFrameable(relay.frames)
            && outcome
               == (if |Encode(query)| > send.room then Aborted(if send.late then IdleTimeout else WriteFailed)
                   else if send.closed then Aborted(UpstreamFailed)
                   else if |EncodeAll(relay.frames)| > clientSend.room
                   then Aborted(if clientSend.late then IdleTimeout else WriteFailed)
                   else if relay.error.Some? then Aborted(relay.error.value)
                   else if clientSend.closed then Aborted(FinishFailed)
                   else Forwarded(|Encode(query)|, |EncodeAll(relay.frames)|))
            && clientSend.written == (if |Encode(query)| > send.room || send.closed then []
                                      else UpTo(EncodeAll(relay.frames), clientSend.room))
    ensures outcome.Forwarded? ==> send.finished && clientSend.finished
  {
    RelayIsTransparent(recv.Bytes(), recv.end);
    hide RelayOf, ReadFrame, AllDnsMessages, EncodeAll, AllFrameable;
    assert [] + Encode(query) == Encode(query);
    var failed := WriteDoqFrame(send, query);
    if failed.Some? {
      return Aborted(failed.value);
    }
    failed := send.Finish();
    if failed.Some? {
      return Aborted(UpstreamFailed);
    }
    var sent, error := RelayResponses(recv, clientSend);
    if error.Some? {
      return Aborted(error.value);
    }
    failed := clientSend.Finish();
    if failed.Some? {
      return Aborted(FinishFailed);
    }
    outcome := Forwarded(|query| + 2, sent);
  }
}
