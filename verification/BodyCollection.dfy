/**
 The three bounded collectors of HTTP bodies (src/proxy/http.rs,
 src/readers/doh3.rs, src/upstream/quic.rs) and what they have in common:
 concatenate all data, fail once it exceeds one DNS message.
 */
module BodyCollection {
  import opened Framing
  import opened Streams

  /** A buffer delivered at once: its contiguous slices, in order; `chunk()` shows the first of them. */
  type Chunk = seq<seq<Byte>>

  datatype Event = Data(chunk: Chunk) | Trailers

  /** What follows the last event: the end of the body, a read error, or no progress before the deadline. */
  datatype BodyEnd = Complete | Broken | Hung

  datatype Collected = Body(bytes: seq<Byte>) | TooLarge | ReadError | NoProgress

  const USIZE_MAX: nat := 0xFFFF_FFFF_FFFF_FFFF

  function SaturatingAdd(a: nat, b: nat): nat {
    if a + b <= USIZE_MAX then a + b else USIZE_MAX
  }

  function SaturatingSub(a: nat, b: nat): nat {
    if a <= b then 0 else a - b
  }

  // ----- the reference -----

  function DataOf(e: Event): seq<Byte> {
    if e.Data? then Flatten(e.chunk) else []
  }

  function Concat(events: seq<Event>): seq<Byte> {
    if events == [] then [] else Concat(events[..|events| - 1]) + DataOf(events[|events| - 1])
  }

  /** The outcome for a whole body. */
  function Reference(events: seq<Event>, end: BodyEnd): Collected {
    if |Concat(events)| > MAX_DNS_MESSAGE_SIZE then TooLarge
    else
      match end
      case Complete => Body(Concat(events))
      case Broken => ReadError
      case Hung => NoProgress
  }

  lemma ConcatNext(events: seq<Event>, i: nat)
    requires i < |events|
    ensures Concat(events[..i + 1]) == Concat(events[..i]) + DataOf(events[i])
  {
    assert events[..i + 1][..i] == events[..i];
  }

  lemma {:induction false} ConcatGrows(events: seq<Event>, i: nat)
    requires i <= |events|
    ensures Concat(events[..i]) <= Concat(events)
    decreases |events| - i
  {
    if i == |events| {
      assert events[..i] == events;
    } else {
      ConcatNext(events, i);
      ConcatGrows(events, i + 1);
    }
  }

  /** The data of a body is that of its events, one after the other; trailers are none of it. */
  lemma ConcatOne(chunk: Chunk)
    ensures Concat([Data(chunk)]) == Flatten(chunk) && Concat([Trailers]) == [] && Concat([]) == []
  {
    var none: seq<Event> := [];
    assert [Data(chunk)][..0] == none && [Trailers][..0] == none;
  }

  lemma {:induction false} ConcatAppend(a: seq<Event>, b: seq<Event>)
    ensures Concat(a + b) == Concat(a) + Concat(b)
    decreases |b|
  {
    if b == [] {
      assert a + b == a;
    } else {
      var front, last := b[..|b| - 1], b[|b| - 1];
      ConcatAppend(a, front);
      assert (a + b)[..|a + b| - 1] == a + front && (a + b)[|a + b| - 1] == last;
      assert (Concat(a) + Concat(front)) + DataOf(last) == Concat(a) + (Concat(front) + DataOf(last));
    }
  }

  // ----- the collectors -----

  /** collect_body_with_progress: compares the data with the room left. */
  method CollectWithProgress(events: seq<Event>, end: BodyEnd) returns (result: Collected, taken: nat)
    ensures result == Reference(events, end)
    ensures result
            == if |Concat(events)| > 65535 then TooLarge
               else match end case Complete => Body(Concat(events)) case Broken => ReadError case Hung => NoProgress
    ensures taken <= |events| && (result == TooLarge <==> taken < |events|)
    ensures result == TooLarge ==> |Concat(events[..taken])| <= 65535 < |Concat(events[..taken + 1])|
    ensures result.Body? ==> |result.bytes| <= 65535
  {
    var collected: seq<Byte> := [];
    taken := 0;
    assert Concat(events[..0]) == [];
    hide Concat;
    while taken < |events|
      invariant taken <= |events| && collected == Concat(events[..taken])
      invariant |collected| <= MAX_DNS_MESSAGE_SIZE
    {
      ConcatNext(events, taken);
      if events[taken].Data? {
        var data := Flatten(events[taken].chunk);
        var remaining := SaturatingSub(MAX_DNS_MESSAGE_SIZE, |collected|);
        if |data| > remaining {
          ConcatGrows(events, taken + 1);
          return TooLarge, taken;
        }
        collected := collected + data;
      }
      taken := taken + 1;
    }
    assert events[..taken] == events;
    result := match end case Complete => Body(collected) case Broken => ReadError case Hung => NoProgress;
  }

  /** Copy what a chunk shows, advance by as much, until nothing remains. */
  method CopySlices(collected: seq<Byte>, chunk: Chunk) returns (copied: seq<Byte>)
    ensures copied == collected + Flatten(chunk)
  {
    copied := collected;
    var rest := chunk;
    while rest != []
      invariant copied + Flatten(rest) == collected + Flatten(chunk)
      decreases |rest|
    {
      assert (copied + rest[0]) + Flatten(rest[1..]) == copied + (rest[0] + Flatten(rest[1..]));
      copied := copied + rest[0];
      rest := rest[1..];
    }
  }

  /** The POST body loop of the DoH3 reader: a saturating test, then every slice of the chunk in turn. */
  method CollectRequestBody(events: seq<Event>, end: BodyEnd) returns (result: Collected, taken: nat)
    ensures result == Reference(events, end)
    ensures result
            == if |Concat(events)| > 65535 then TooLarge
               else match end case Complete => Body(Concat(events)) case Broken => ReadError case Hung => NoProgress
    ensures taken <= |events| && (result == TooLarge <==> taken < |events|)
    ensures result == TooLarge ==> |Concat(events[..taken])| <= 65535 < |Concat(events[..taken + 1])|
    ensures result.Body? ==> |result.bytes| <= 65535
  {
    var collected: seq<Byte> := [];
    taken := 0;
    assert Concat(events[..0]) == [];
    hide Concat, Flatten;
    while taken < |events|
      invariant taken <= |events| && collected == Concat(events[..taken])
      invariant |collected| <= MAX_DNS_MESSAGE_SIZE
    {
      ConcatNext(events, taken);
      if events[taken].Data? {
        var chunk := events[taken].chunk;
        if SaturatingAdd(|collected|, |Flatten(chunk)|) > MAX_DNS_MESSAGE_SIZE {
          ConcatGrows(events, taken + 1);
          return TooLarge, taken;
        }
        collected := CopySlices(collected, chunk);
      }
      taken := taken + 1;
    }
    assert events[..taken] == events;
    result := match end case Complete => Body(collected) case Broken => ReadError case Hung => NoProgress;
  }

  // ----- the collector that keeps one slice -----

  function FirstSlice(chunk: Chunk): seq<Byte> {
    if chunk == [] then [] else chunk[0]
  }

  function FirstOf(e: Event): seq<Byte> {
    if e.Data? then FirstSlice(e.chunk) else []
  }

  function Kept(events: seq<Event>): seq<Byte> {
    if events == [] then [] else Kept(events[..|events| - 1]) + FirstOf(events[|events| - 1])
  }

  lemma KeptNext(events: seq<Event>, i: nat)
    requires i < |events|
    ensures Kept(events[..i + 1]) == Kept(events[..i]) + FirstOf(events[i])
  {
    assert events[..i + 1][..i] == events[..i];
  }

  /** The collector keeps the first slice of each chunk, and nothing else. */
  lemma KeptOne(slice: seq<Byte>, others: Chunk)
    ensures Kept([Data([slice] + others)]) == slice
    ensures Kept([Data([])]) == [] && Kept([Trailers]) == [] && Kept([]) == []
  {
    var none: seq<Event> := [];
    assert [Data([slice] + others)][..0] == none && [Data([])][..0] == none && [Trailers][..0] == none;
  }

  lemma {:induction false} KeptAppend(a: seq<Event>, b: seq<Event>)
    ensures Kept(a + b) == Kept(a) + Kept(b)
    decreases |b|
  {
    if b == [] {
      assert a + b == a;
    } else {
      var front, last := b[..|b| - 1], b[|b| - 1];
      KeptAppend(a, front);
      assert (a + b)[..|a + b| - 1] == a + front && (a + b)[|a + b| - 1] == last;
      assert (Kept(a) + Kept(front)) + FirstOf(last) == Kept(a) + (Kept(front) + FirstOf(last));
    }
  }

  /** `Buf::chunk` is empty only when nothing remains. */
  ghost predicate SlicesNonEmpty(events: seq<Event>) {
    forall i, j :: 0 <= i < |events| && events[i].Data? && 0 <= j < |events[i].chunk| ==> events[i].chunk[j] != []
  }

  ghost predicate SingleSlices(events: seq<Event>) {
    forall i :: 0 <= i < |events| && events[i].Data? ==> |events[i].chunk| <= 1
  }

  lemma SliceSize(chunk: Chunk)
    requires forall j :: 0 <= j < |chunk| ==> chunk[j] != []
    ensures |FirstSlice(chunk)| <= |Flatten(chunk)|
    ensures |FirstSlice(chunk)| == |Flatten(chunk)| <==> |chunk| <= 1
    ensures |chunk| <= 1 ==> FirstSlice(chunk) == Flatten(chunk)
  {
    if |chunk| > 1 {
      assert chunk[1..][0] == chunk[1];
    }
  }

  /** Keeping first slices keeps everything exactly if every chunk is contiguous. */
  lemma {:induction false} KeptIsAllIffContiguous(events: seq<Event>)
    requires SlicesNonEmpty(events)
    ensures |Kept(events)| <= |Concat(events)|
    ensures |Kept(events)| == |Concat(events)| <==> SingleSlices(events)
    ensures SingleSlices(events) ==> Kept(events) == Concat(events)
    decreases |events|
  {
    if events != [] {
      var front, last := events[..|events| - 1], events[|events| - 1];
      assert forall i :: 0 <= i < |front| ==> front[i] == events[i];
      KeptIsAllIffContiguous(front);
      if last.Data? {
        SliceSize(last.chunk);
      }
      assert SingleSlices(events) <==> SingleSlices(front) && (last.Data? ==> |last.chunk| <= 1);
    }
  }

  /** The test sees all that remains of a chunk but only first slices are kept. */
  ghost predicate Fits(events: seq<Event>, i: nat)
    requires i < |events|
  {
    |Kept(events[..i])| + |DataOf(events[i])| <= MAX_DNS_MESSAGE_SIZE
  }

  ghost predicate AllFit(events: seq<Event>) {
    forall i :: 0 <= i < |events| ==> Fits(events, i)
  }

  /** The outcome of the collector that keeps first slices. */
  ghost function Third(events: seq<Event>, end: BodyEnd): Collected {
    if !AllFit(events) then TooLarge
    else
      match end
      case Complete => Body(Kept(events))
      case Broken => ReadError
      case Hung => NoProgress
  }

  lemma DataIsConcat(e: Event)
    ensures DataOf(e) == Concat([e])
  {
    var none: seq<Event> := [];
    assert [e][..0] == none;
  }

  /**
   The outcome in terms of the data: it rejects exactly if some chunk does not fit beside the first slices
   kept before it, and otherwise returns those of all chunks, or what ended the body early.
   */
  lemma ThirdRejectsIff(events: seq<Event>, end: BodyEnd)
    ensures Third(events, end) == TooLarge
            <==> exists i :: 0 <= i < |events| && |Kept(events[..i])| + |Concat([events[i]])| > 65535
    ensures Third(events, end) != TooLarge ==>
              Third(events, end)
              == match end case Complete => Body(Kept(events)) case Broken => ReadError case Hung => NoProgress
  {
    forall i | 0 <= i < |events| ensures Fits(events, i) <==> |Kept(events[..i])| + |Concat([events[i]])| <= 65535 {
      DataIsConcat(events[i]);
    }
    hide Kept, Concat, Fits;
  }

  /** The response body loop of forward_http3_request. */
  method CollectResponseBody(events: seq<Event>, end: BodyEnd) returns (result: Collected, taken: nat)
    requires SlicesNonEmpty(events)
    ensures result == Third(events, end)
    ensures taken <= |events| && (result == TooLarge <==> taken < |events|)
    ensures forall i :: 0 <= i < taken ==> Fits(events, i)
    ensures result == TooLarge ==> !Fits(events, taken)
    ensures result.Body? ==> |result.bytes| <= 65535
  {
    var collected: seq<Byte> := [];
    taken := 0;
    assert Kept(events[..0]) == [];
    hide Kept, SlicesNonEmpty, Flatten, Fits, SaturatingAdd;
    while taken < |events|
      invariant taken <= |events| && collected == Kept(events[..taken])
      invariant |collected| <= MAX_DNS_MESSAGE_SIZE
      invariant forall i :: 0 <= i < taken ==> Fits(events, i)
    {
      KeptNext(events, taken);
      FirstFits(events, taken);
      if events[taken].Data? {
        var chunk := events[taken].chunk;
        TestIsFit(collected, events, taken);
        if SaturatingAdd(|collected|, |Flatten(chunk)|) > MAX_DNS_MESSAGE_SIZE {
          return TooLarge, taken;
        }
        collected := collected + FirstSlice(chunk);
      }
      taken := taken + 1;
    }
    assert events[..taken] == events;
    result := match end case Complete => Body(collected) case Broken => ReadError case Hung => NoProgress;
  }

  lemma TestIsFit(collected: seq<Byte>, events: seq<Event>, i: nat)
    requires i < |events| && events[i].Data? && collected == Kept(events[..i]) && |collected| <= MAX_DNS_MESSAGE_SIZE
    ensures SaturatingAdd(|collected|, |Flatten(events[i].chunk)|) <= MAX_DNS_MESSAGE_SIZE <==> Fits(events, i)
    ensures Fits(events, i) ==> |collected| + |DataOf(events[i])| <= MAX_DNS_MESSAGE_SIZE
  {
  }

  lemma FirstFits(events: seq<Event>, i: nat)
    requires SlicesNonEmpty(events) && i < |events|
    ensures |FirstOf(events[i])| <= |DataOf(events[i])|
  {
    if events[i].Data? {
      SliceSize(events[i].chunk);
    }
  }

  /** What does not fit beside what was kept does not fit beside everything. */
  lemma OverflowIsReal(events: seq<Event>, i: nat)
    requires i < |events| && SlicesNonEmpty(events) && !Fits(events, i)
    ensures |Concat(events)| > MAX_DNS_MESSAGE_SIZE
  {
    KeptIsAllIffContiguous(events[..i]);
    ConcatNext(events, i);
    ConcatGrows(events, i + 1);
  }

  /** If everything fits and every chunk is contiguous, the whole body is within the limit. */
  lemma {:induction false} ContiguousFits(events: seq<Event>, i: nat)
    requires SlicesNonEmpty(events) && SingleSlices(events) && AllFit(events) && i <= |events|
    ensures |Concat(events[..i])| <= MAX_DNS_MESSAGE_SIZE
  {
    if i > 0 {
      assert Fits(events, i - 1);
      assert SingleSlices(events[..i - 1]) && SlicesNonEmpty(events[..i - 1]);
      ConcatNext(events, i - 1);
      KeptIsAllIffContiguous(events[..i - 1]);
    }
  }

  /**
   The third collector agrees with the others exactly if it rejects the body, or the body is within the
   limit and, when it is delivered in full, every chunk is contiguous.
   */
  lemma ThirdAgreesIff(events: seq<Event>, end: BodyEnd)
    requires SlicesNonEmpty(events)
    ensures Third(events, end) == Reference(events, end)
            <==> !AllFit(events)
                 || (|Concat(events)| <= MAX_DNS_MESSAGE_SIZE && (end == Complete ==> SingleSlices(events)))
  {
    KeptIsAllIffContiguous(events);
    if !AllFit(events) {
      var i :| 0 <= i < |events| && !Fits(events, i);
      OverflowIsReal(events, i);
    }
  }

  /** In particular it agrees with them on every body of contiguous chunks. */
  lemma ThirdAgreesOnContiguous(events: seq<Event>, end: BodyEnd)
    requires SlicesNonEmpty(events) && SingleSlices(events)
    ensures Third(events, end) == Reference(events, end)
  {
    ThirdAgreesIff(events, end);
    if AllFit(events) {
      ContiguousFits(events, |events|);
      assert events[..|events|] == events;
    }
  }

  /** A body over the limit can be accepted, cut: a chunk of one byte and 65535 more that are not kept. */
  lemma LongBodyIsCut(rest: seq<Byte>)
    requires |rest| == MAX_DNS_MESSAGE_SIZE - 1
    ensures var events := [Data([[1], rest]), Data([[2]])];
            SlicesNonEmpty(events) && Third(events, Complete) == Body([1, 2]) && Reference(events, Complete) == TooLarge
  {
    var first, second: Chunk := [[1], rest], [[2]];
    var events := [Data(first), Data(second)];
    FlattenTwo([1], rest);
    FlattenOne([2]);
    var none: seq<Event> := [];
    assert events[..0] == none && events[..1] == [Data(first)] && events[..2] == events;
    KeptNext(events, 0);
    KeptNext(events, 1);
    ConcatNext(events, 0);
    ConcatNext(events, 1);
    hide Kept, Concat, Flatten;
    assert Fits(events, 0) && Fits(events, 1);
  }

  lemma FlattenTwo(a: seq<Byte>, b: seq<Byte>)
    ensures Flatten([a, b]) == a + b
  {
    FlattenOne(a);
    FlattenOne(b);
    FlattenAppend([a], [b]);
    assert [a] + [b] == [a, b];
  }

  /** One chunk in two slices: the third collector loses the second slice. */
  lemma SecondSliceIsLost()
    ensures var events := [Data([[1], [2]])];
            SlicesNonEmpty(events) && Reference(events, Complete) == Body([1, 2]) && Kept(events) == [1]
  {
    var chunk: Chunk := [[1], [2]];
    var events := [Data(chunk)];
    var none: seq<Event> := [];
    assert events[..0] == none;
    FlattenTwo([1], [2]);
  }
}
