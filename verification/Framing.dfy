/**
 DNS messages framed with a two-octet length (section 4.2 of RFC 9250, section
 4.2.2 of RFC 1035), as src/upstream/quic.rs reads and writes them.  Everything
 here is about byte sequences; how a stream cuts its bytes into chunks does not
 show (see Streams).
 */
module Framing {
  import opened Wrappers

  type Byte = x: int | 0 <= x < 256

  type Message = seq<Byte>

  const MAX_DNS_MESSAGE_SIZE: nat := 65535

  /** How the bytes of an incoming stream end: by FIN, by a reset, or by no progress within the idle timeout. */
  datatype End = Fin | Reset | Stalled

  datatype Error =
    | IncompleteFrame
    | EmptyFrame
    | IncompleteMessage
    | NoQuery
    | ShortQuery
    | NonZeroId
    | SecondQuery
    | BadResponse
    | MessageTooLong
    | WriteFailed
    | FinishFailed
    | IdleTimeout
    | UpstreamFailed
    | PoolFailed

  datatype FrameResult = Frame(message: Message, rest: seq<Byte>) | Finished | Failed(error: Error)

  // ----- one frame -----

  function Encode(m: Message): seq<Byte>
    requires |m| <= MAX_DNS_MESSAGE_SIZE
  {
    [|m| / 256, |m| % 256] + m
  }

  function Length(hi: Byte, lo: Byte): nat {
    256 * hi + lo
  }

  /** read_doq_frame on a stream with these bytes left. */
  function ReadFrame(bytes: seq<Byte>, end: End): (r: FrameResult)
    ensures r.Frame? ==> |r.rest| < |bytes| && IsFrameable(r.message)
  {
    if |bytes| == 0 && end == Fin then Finished
    else if |bytes| < 2 then Failed(if end == Stalled then IdleTimeout else IncompleteFrame)
    else
      var length := Length(bytes[0], bytes[1]);
      if length == 0 then Failed(EmptyFrame)
      else if |bytes| - 2 < length then Failed(if end == Stalled then IdleTimeout else IncompleteMessage)
      else Frame(bytes[2..2 + length], bytes[2 + length..])
  }

  predicate IsFrameable(m: Message) {
    1 <= |m| <= MAX_DNS_MESSAGE_SIZE
  }

  /** On the wire: two octets of length, the higher first, then the message. */
  lemma EncodeIsBigEndian(m: Message)
    requires |m| <= 65535
    ensures |Encode(m)| == |m| + 2 && Encode(m)[2..] == m
    ensures Encode(m)[0] as int == |m| / 256 && Encode(m)[1] as int == |m| % 256
  {
  }

  lemma FrameRoundTrip(m: Message, rest: seq<Byte>, end: End)
    requires IsFrameable(m)
    ensures ReadFrame(Encode(m) + rest, end) == Frame(m, rest)
  {
    var bytes := Encode(m) + rest;
    assert bytes[0] == |m| / 256 && bytes[1] == |m| % 256;
    assert bytes[2..2 + |m|] == m && bytes[2 + |m|..] == rest;
  }

  lemma FrameUnique(bytes: seq<Byte>, end: End)
    requires ReadFrame(bytes, end).Frame?
    ensures var Frame(m, rest) := ReadFrame(bytes, end);
            IsFrameable(m) && bytes == Encode(m) + rest && |rest| < |bytes|
  {
    var Frame(m, rest) := ReadFrame(bytes, end);
    var length := Length(bytes[0], bytes[1]);
    assert |m| == length;
    assert length / 256 == bytes[0] && length % 256 == bytes[1];
    assert bytes == bytes[..2] + bytes[2..2 + length] + bytes[2 + length..];
  }

  // ----- a whole stream -----

  ghost predicate AllFrameable(ms: seq<Message>) {
    forall i :: 0 <= i < |ms| ==> IsFrameable(ms[i])
  }

  function EncodeAll(ms: seq<Message>): seq<Byte>
    requires AllFrameable(ms)
  {
    if ms == [] then [] else Encode(ms[0]) + EncodeAll(ms[1..])
  }

  /** Every frame in order, and the error that ended the reading, if any. */
  datatype Decoded = Decoded(messages: seq<Message>, error: Option<Error>)

  function ReadAll(bytes: seq<Byte>, end: End): Decoded
    decreases |bytes|
  {
    match ReadFrame(bytes, end)
    case Finished => Decoded([], None)
    case Failed(e) => Decoded([], Some(e))
    case Frame(m, rest) =>
      var more := ReadAll(rest, end);
      Decoded([m] + more.messages, more.error)
  }

  /** Reading what was written returns the same messages, then the end of the stream. */
  lemma {:induction false} StreamRoundTrip(ms: seq<Message>)
    requires AllFrameable(ms)
    ensures ReadAll(EncodeAll(ms), Fin) == Decoded(ms, None)
  {
    if ms != [] {
      FrameRoundTrip(ms[0], EncodeAll(ms[1..]), Fin);
      StreamRoundTrip(ms[1..]);
    }
  }

  /** A stream is read through to its end exactly if it is the concatenation of its frames, then FIN. */
  lemma {:induction false} StreamUnique(bytes: seq<Byte>, end: End)
    ensures AllFrameable(ReadAll(bytes, end).messages)
    ensures EncodeAll(ReadAll(bytes, end).messages) <= bytes
    ensures ReadAll(bytes, end).error.None? <==> end == Fin && EncodeAll(ReadAll(bytes, end).messages) == bytes
    decreases |bytes|
  {
    match ReadFrame(bytes, end) {
      case Finished =>
      case Failed(e) =>
      case Frame(m, rest) =>
        FrameUnique(bytes, end);
        StreamUnique(rest, end);
        var more := ReadAll(rest, end).messages;
        assert ([m] + more)[1..] == more;
        assert EncodeAll([m] + more) == Encode(m) + EncodeAll(more);
        assert bytes == Encode(m) + rest;
        assert |bytes| == |Encode(m)| + |rest|;
        if EncodeAll([m] + more) == bytes {
          assert EncodeAll(more) == bytes[|Encode(m)|..] == rest;
        }
    }
  }

  /** Two sequences of messages with the same encoding are the same: framing is unambiguous. */
  lemma EncodingInjective(a: seq<Message>, b: seq<Message>)
    requires AllFrameable(a) && AllFrameable(b) && EncodeAll(a) == EncodeAll(b)
    ensures a == b
  {
    StreamRoundTrip(a);
    StreamRoundTrip(b);
  }

  lemma {:induction false} EncodeAllAppend(a: seq<Message>, b: seq<Message>)
    requires AllFrameable(a) && AllFrameable(b)
    ensures AllFrameable(a + b) && EncodeAll(a + b) == EncodeAll(a) + EncodeAll(b)
  {
    if a == [] {
      assert a + b == b;
    } else {
      EncodeAllAppend(a[1..], b);
      assert (a + b)[1..] == a[1..] + b;
      assert (a + b)[0] == a[0];
    }
  }

  lemma CutBetweenFrames(ms: seq<Message>, k: nat)
    requires AllFrameable(ms) && k <= |ms|
    ensures AllFrameable(ms[..k]) && EncodeAll(ms[..k]) <= EncodeAll(ms)
    ensures ReadAll(EncodeAll(ms[..k]), Fin) == Decoded(ms[..k], None)
  {
    hide ReadAll, EncodeAll, IsFrameable;
    var front, back := ms[..k], ms[k..];
    assert front + back == ms;
    EncodeAllAppend(front, back);
    StreamRoundTrip(front);
  }

  lemma CleanCutIsBetweenFrames(ms: seq<Message>, cut: nat) returns (k: nat)
    requires AllFrameable(ms) && cut <= |EncodeAll(ms)|
    requires ReadAll(EncodeAll(ms)[..cut], Fin).error.None?
    ensures k <= |ms| && AllFrameable(ms[..k]) && |EncodeAll(ms[..k])| == cut
  {
    var bytes := EncodeAll(ms);
    StreamUnique(bytes[..cut], Fin);
    hide ReadAll, EncodeAll;
    var got := ReadAll(bytes[..cut], Fin).messages;
    assert EncodeAll(got) + bytes[cut..] == bytes;
    PrefixOfMessages(got, bytes[cut..], ms);
    k := |got|;
  }

  ghost predicate IsBoundary(ms: seq<Message>, k: nat, cut: nat)
    requires AllFrameable(ms)
  {
    k <= |ms| && |EncodeAll(ms[..k])| == cut
  }

  /** Cutting an encoded stream short is noticed unless the cut falls between two frames. */
  lemma TruncationNoticed(ms: seq<Message>, cut: nat)
    requires AllFrameable(ms) && cut <= |EncodeAll(ms)|
    ensures ReadAll(EncodeAll(ms)[..cut], Fin).error.None? <==> exists k: nat :: IsBoundary(ms, k, cut)
  {
    hide ReadAll, EncodeAll;
    if k: nat :| IsBoundary(ms, k, cut) {
      CutBetweenFrames(ms, k);
      assert EncodeAll(ms)[..cut] == EncodeAll(ms[..k]);
    }
    if ReadAll(EncodeAll(ms)[..cut], Fin).error.None? {
      var k := CleanCutIsBetweenFrames(ms, cut);
      assert IsBoundary(ms, k, cut);
    }
  }

  /** If one encoded stream is a prefix of another, its messages are the first ones of the other. */
  lemma {:induction false} PrefixOfMessages(a: seq<Message>, more: seq<Byte>, b: seq<Message>)
    requires AllFrameable(a) && AllFrameable(b) && EncodeAll(a) + more == EncodeAll(b)
    ensures |a| <= |b| && b[..|a|] == a
  {
    if a != [] && b != [] {
      SplitFirst(a, more, b);
      PrefixOfMessages(a[1..], more, b[1..]);
      assert b[..|a|] == [b[0]] + b[1..][..|a[1..]|];
      assert a == [a[0]] + a[1..];
    }
  }

  lemma FrameCancels(m: Message, r: seq<Byte>, n: Message, t: seq<Byte>)
    requires IsFrameable(m) && IsFrameable(n) && Encode(m) + r == Encode(n) + t
    ensures m == n && r == t
  {
    FrameRoundTrip(m, r, Fin);
    FrameRoundTrip(n, t, Fin);
    hide ReadFrame, Encode;
  }

  lemma EncodeFirst(ms: seq<Message>, more: seq<Byte>)
    requires AllFrameable(ms) && ms != []
    ensures IsFrameable(ms[0]) && AllFrameable(ms[1..])
    ensures EncodeAll(ms) + more == Encode(ms[0]) + (EncodeAll(ms[1..]) + more)
  {
    assert AllFrameable(ms[1..]);
    hide Encode, IsFrameable;
  }

  lemma SplitFirst(a: seq<Message>, more: seq<Byte>, b: seq<Message>)
    requires AllFrameable(a) && AllFrameable(b) && a != [] && b != [] && EncodeAll(a) + more == EncodeAll(b)
    ensures a[0] == b[0] && AllFrameable(a[1..]) && AllFrameable(b[1..])
    ensures EncodeAll(a[1..]) + more == EncodeAll(b[1..])
  {
    EncodeFirst(a, more);
    EncodeFirst(b, []);
    assert EncodeAll(b) + [] == EncodeAll(b) && EncodeAll(b[1..]) + [] == EncodeAll(b[1..]);
    hide *;
    FrameCancels(a[0], EncodeAll(a[1..]) + more, b[0], EncodeAll(b[1..]));
  }

  // ----- which error a stream ends with -----

  /** `p` is the beginning of a frame, but not all of it. */
  ghost predicate IsCut(p: seq<Byte>, m: Message)
    requires |m| <= MAX_DNS_MESSAGE_SIZE
  {
    p <= Encode(m) && |p| < |Encode(m)|
  }

  /** A cut frame: nothing at all before FIN is no error, and a stalled stream times out wherever it is cut. */
  lemma CutFrame(m: Message, p: seq<Byte>, end: End)
    requires 1 <= |m| <= 65535 && IsCut(p, m)
    ensures ReadFrame(p, end)
            == if p == [] && end == Fin then Finished
               else if end == Stalled then Failed(IdleTimeout)
               else if |p| < 2 then Failed(IncompleteFrame)
               else Failed(IncompleteMessage)
  {
    if |p| >= 2 {
      assert p[0] == Encode(m)[0] && p[1] == Encode(m)[1];
    }
  }

  /** A frame of length zero is an error, whatever follows. */
  lemma EmptyFrameFails(p: seq<Byte>, end: End)
    requires |p| >= 2 && p[0] == 0 && p[1] == 0
    ensures ReadFrame(p, end) == Failed(EmptyFrame)
  {
  }

  /** Every stream is a sequence of frames followed by a cut frame, possibly of no bytes, or by an empty one. */
  lemma {:induction false} FramesThenTail(bytes: seq<Byte>) returns (ms: seq<Message>, m: Message, tail: seq<Byte>)
    ensures AllFrameable(ms) && IsFrameable(m) && bytes == EncodeAll(ms) + tail
    ensures IsCut(tail, m) || (|tail| >= 2 && tail[0] == 0 && tail[1] == 0)
    decreases |bytes|
  {
    var first := ReadFrame(bytes, Fin);
    if first.Frame? {
      FrameUnique(bytes, Fin);
      var more;
      more, m, tail := FramesThenTail(first.rest);
      ms := [first.message] + more;
      assert ms[1..] == more;
      assert Encode(first.message) + (EncodeAll(more) + tail) == (Encode(first.message) + EncodeAll(more)) + tail;
    } else {
      ms, tail := [], bytes;
      m := CutOf(bytes);
    }
  }

  lemma CutOfOne(byte: Byte) returns (m: Message)
    ensures IsFrameable(m) && IsCut([byte], m)
  {
    var length: nat := if byte == 0 then 1 else 256 * (byte as int);
    m := seq(length, i => 0);
    assert length / 256 == byte;
    assert Encode(m)[..1] == [byte];
  }

  lemma CutOfMore(hi: Byte, lo: Byte, part: seq<Byte>) returns (m: Message)
    requires |part| < Length(hi, lo)
    ensures IsFrameable(m) && IsCut([hi, lo] + part, m)
  {
    var length := Length(hi, lo);
    var padding: seq<Byte> := seq(length - |part|, i => 0);
    m := part + padding;
    assert length / 256 == hi && length % 256 == lo;
    assert Encode(m) == ([hi, lo] + part) + padding;
  }

  lemma CutOf(bytes: seq<Byte>) returns (m: Message)
    requires !ReadFrame(bytes, Fin).Frame?
    ensures IsFrameable(m)
    ensures IsCut(bytes, m) || (|bytes| >= 2 && bytes[0] == 0 && bytes[1] == 0)
  {
    if |bytes| == 0 {
      m := [0];
    } else if |bytes| == 1 {
      m := CutOfOne(bytes[0]);
      assert bytes == [bytes[0]];
    } else if Length(bytes[0], bytes[1]) == 0 {
      m := [0];
    } else {
      m := CutOfMore(bytes[0], bytes[1], bytes[2..]);
      hide Encode;
      assert bytes == [bytes[0], bytes[1]] + bytes[2..];
    }
  }

  /** What the reading of a stream meets at its end. */
  lemma {:induction false} StreamEndsWith(ms: seq<Message>, tail: seq<Byte>, end: End)
    requires AllFrameable(ms)
    requires !ReadFrame(tail, end).Frame?
    ensures ReadAll(EncodeAll(ms) + tail, end)
            == Decoded(ms, if ReadFrame(tail, end).Failed? then Some(ReadFrame(tail, end).error) else None)
  {
    if ms == [] {
      assert EncodeAll(ms) + tail == tail;
    } else {
      var head, rest := Encode(ms[0]), EncodeAll(ms[1..]);
      assert EncodeAll(ms) + tail == head + (rest + tail);
      StreamEndsWith(ms[1..], tail, end);
      FrameRoundTrip(ms[0], rest + tail, end);
      hide ReadFrame, Encode;
      assert [ms[0]] + ms[1..] == ms;
    }
  }

  /** The error that a cut stream gives, from the bytes that arrived and the way the stream ended. */
  lemma CutStream(ms: seq<Message>, m: Message, p: seq<Byte>, end: End)
    requires AllFrameable(ms) && 1 <= |m| <= 65535 && IsCut(p, m)
    ensures ReadAll(EncodeAll(ms) + p, end)
            == Decoded(ms, if p == [] && end == Fin then None
                           else if end == Stalled then Some(IdleTimeout)
                           else if |p| < 2 then Some(IncompleteFrame)
                           else Some(IncompleteMessage))
  {
    CutFrame(m, p, end);
    StreamEndsWith(ms, p, end);
    hide *;
  }

  lemma EmptyFrameInStream(ms: seq<Message>, p: seq<Byte>, end: End)
    requires AllFrameable(ms) && |p| >= 2 && p[0] == 0 && p[1] == 0
    ensures ReadAll(EncodeAll(ms) + p, end) == Decoded(ms, Some(EmptyFrame))
  {
    EmptyFrameFails(p, end);
    StreamEndsWith(ms, p, end);
    hide *;
  }

  /** Only a stalled stream times out. */
  lemma TimeoutMeansStalled(bytes: seq<Byte>, end: End)
    ensures ReadAll(bytes, end).error == Some(IdleTimeout) ==> end == Stalled
  {
    var ms, m, tail := FramesThenTail(bytes);
    if IsCut(tail, m) {
      CutStream(ms, m, tail, end);
    } else {
      EmptyFrameInStream(ms, tail, end);
    }
    hide *;
  }
}
