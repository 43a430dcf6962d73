/**
 * The sending half of a flow (src/flow.rs): bytes wait in `outbound`, pass through the hand of the
 * flow task, and stay in `replay` until they are acknowledged.
 */
module Sending {
  import opened Results
  import opened Galois
  import opened Varint
  import opened AckRanges
  import opened Chunks
  import opened Replay

  /**
   * `stream` is every byte accepted into the flow so far, so `next_send_offset` is its length;
   * `sent` is the offset up to which the flow task has passed chunks on to `replay`.
   */
  datatype Outbox = Outbox(
    stream: Bytes,
    sent: nat,
    outbound: seq<SentChunk>,
    hand: Option<SentChunk>,
    replay: seq<SentChunk>,
    retainedBytes: nat,
    retainedChunks: nat,
    limit: nat,
    peerMax: nat,
    shutdown: Option<nat>,
    error: bool,
    reset: bool,
    stopped: bool,
    finQueued: bool)
  {
    function Chain(): seq<SentChunk> {
      (if hand.Some? then [hand.value] else []) + outbound
    }
  }

  /** Chunks that follow one another without a gap from `from` on. */
  ghost predicate Consecutive(chain: seq<SentChunk>, from: nat) {
    && (forall i :: 0 <= i < |chain| ==> chain[i].bytes != [])
    && (chain != [] ==> chain[0].offset == from)
    && forall i :: 0 < i < |chain| ==> chain[i].offset == chain[i - 1].End()
  }

  function ChainEnd(chain: seq<SentChunk>, from: nat): nat {
    if chain == [] then from else chain[|chain| - 1].End()
  }

  /** The chunk is a stretch of the stream. */
  ghost predicate Slice(stream: Bytes, c: SentChunk) {
    c.End() <= |stream| && c.bytes == stream[c.offset..c.End()]
  }

  ghost predicate Slices(stream: Bytes, chunks: seq<SentChunk>) {
    forall i :: 0 <= i < |chunks| ==> Slice(stream, chunks[i])
  }

  ghost predicate EndBy(chunks: seq<SentChunk>, limit: nat) {
    forall i :: 0 <= i < |chunks| ==> chunks[i].End() <= limit
  }

  /** The queue continues from `from`, up to the end of the stream if it is whole. */
  ghost predicate Queued(stream: Bytes, chain: seq<SentChunk>, from: nat, whole: bool) {
    && from <= |stream| && Consecutive(chain, from) && Slices(stream, chain)
    && (whole ==> ChainEnd(chain, from) == |stream|)
  }

  ghost predicate Stored(stream: Bytes, replay: seq<SentChunk>, limit: nat) {
    Ordered(replay) && Slices(stream, replay) && EndBy(replay, limit)
  }

  /** The two counters are exact, and within the replay limits. */
  ghost predicate Counted(b: Outbox) {
    && b.retainedBytes == Size(b.Chain()) + Size(b.replay) <= b.limit
    && b.retainedChunks == |b.Chain()| + |b.replay| <= ChunkLimit(b.limit)
  }

  /** What every step of the sending half keeps. */
  ghost predicate Retains(b: Outbox) {
    && Queued(b.stream, b.Chain(), b.sent, !b.reset)
    && Stored(b.stream, b.replay, Smaller(b.sent, b.peerMax))
    && Counted(b)
    && |b.stream| <= MAX_U64 && b.peerMax <= MAX_WIRE_OFFSET
    && (b.shutdown.Some? ==> b.shutdown == Some(|b.stream|))
    && (b.finQueued ==> b.shutdown.Some? && b.outbound == [] && b.replay == [] && b.hand.None?)
    && (b.reset ==> b.error)
  }

  /** The bytes that can still be sent or sent again. */
  ghost predicate Keeps(b: Outbox, o: nat) {
    Has(b.Chain(), o) || Has(b.replay, o)
  }

  // ----- src/flow.rs, the steps

  /** src/flow.rs, `enqueue_ready`. */
  function Ready(b: Outbox, length: nat): Result<bool, ()> {
    if b.error || b.shutdown.Some? then Err(())
    else Ok(b.retainedBytes + length <= b.limit && b.retainedChunks < ChunkLimit(b.limit))
  }

  predicate CanEnqueue(b: Outbox, bytes: Bytes) {
    bytes != [] && Ready(b, |bytes|) == Ok(true) && |b.stream| + |bytes| <= MAX_U64
  }

  function Enqueue(b: Outbox, bytes: Bytes): Outbox {
    b.(stream := b.stream + bytes,
       outbound := b.outbound + [Chunk(|b.stream|, bytes, ())],
       retainedBytes := b.retainedBytes + |bytes|,
       retainedChunks := b.retainedChunks + 1)
  }

  function Take(b: Outbox): Outbox
    requires b.outbound != []
  {
    b.(hand := Some(b.outbound[0]), outbound := b.outbound[1..])
  }

  function PutBack(b: Outbox): Outbox
    requires b.hand.Some?
  {
    b.(hand := None, outbound := [b.hand.value] + b.outbound)
  }

  function Head(c: SentChunk, n: nat): SentChunk
    requires n <= |c.bytes|
  {
    c.(bytes := c.bytes[..n])
  }

  function Tail(c: SentChunk, n: nat): SentChunk
    requires n <= |c.bytes|
  {
    Chunk(c.offset + n, c.bytes[n..], ())
  }

  /** The rest of the chunk in hand goes back to the front of the queue. */
  function Split(b: Outbox, n: nat): Outbox
    requires b.hand.Some? && n <= |b.hand.value.bytes|
  {
    b.(hand := Some(Head(b.hand.value, n)),
       outbound := [Tail(b.hand.value, n)] + b.outbound,
       retainedChunks := b.retainedChunks + 1)
  }

  function Retain(b: Outbox): Outbox
    requires b.hand.Some?
  {
    b.(hand := None, sent := b.hand.value.End(), replay := b.replay + [b.hand.value])
  }

  function Less(a: nat, b: int): nat {
    if 0 <= b <= a then a - b else 0
  }

  function Acknowledge(b: Outbox, contiguous: nat, ranges: seq<Range>): Outbox {
    var kept := Unacked(b.replay, contiguous, ranges);
    b.(replay := kept,
       retainedBytes := Less(b.retainedBytes, Size(b.replay) - Size(kept)),
       retainedChunks := Less(b.retainedChunks, |b.replay| - |kept|))
  }

  function Shutdown(b: Outbox): Outbox {
    if b.shutdown.Some? then b else b.(shutdown := Some(|b.stream|))
  }

  function Reset(b: Outbox): Outbox {
    b.(error := true, reset := true, outbound := [],
       retainedBytes := Less(b.retainedBytes, Size(b.outbound)),
       retainedChunks := Less(b.retainedChunks, |b.outbound|))
  }

  /** The flow task is gone: nothing is kept any longer. */
  function Stop(b: Outbox): Outbox {
    b.(stopped := true, outbound := [], hand := None, replay := [], sent := |b.stream|, retainedBytes := 0,
      retainedChunks := 0)
  }

  predicate CanFinish(b: Outbox) {
    b.shutdown.Some? && !b.finQueued && b.outbound == [] && b.hand.None? && b.replay == []
  }

  // ----- every step keeps the invariant

  lemma SizeOne(c: SentChunk)
    ensures Size([c]) == |c.bytes|
  {
    assert [c][..0] == [];
  }

  lemma SliceGrows(stream: Bytes, more: Bytes, chunks: seq<SentChunk>)
    requires Slices(stream, chunks)
    ensures Slices(stream + more, chunks)
  {
    forall i | 0 <= i < |chunks| ensures Slice(stream + more, chunks[i]) {
      assert Slice(stream, chunks[i]);
      assert (stream + more)[chunks[i].offset..chunks[i].End()] == stream[chunks[i].offset..chunks[i].End()];
    }
  }

  lemma EnqueueKeeps(b: Outbox, bytes: Bytes)
    requires Retains(b) && CanEnqueue(b, bytes)
    ensures Retains(Enqueue(b, bytes))
    ensures Enqueue(b, bytes).Chain() == b.Chain() + [Chunk(|b.stream|, bytes, ())]
  {
    hide Size, Ordered, ChunkLimit;
    var r, c := Enqueue(b, bytes), Chunk(|b.stream|, bytes, ());
    assert r.Chain() == b.Chain() + [c];
    SliceGrows(b.stream, bytes, b.Chain());
    SliceGrows(b.stream, bytes, b.replay);
    assert Slice(r.stream, c);
    SizeConcat(b.Chain(), [c]);
    SizeOne(c);
  }

  lemma TakeKeeps(b: Outbox)
    requires Retains(b) && b.outbound != [] && b.hand.None?
    ensures Retains(Take(b)) && Take(b).Chain() == b.Chain()
  {
    assert Take(b).Chain() == b.Chain();
  }

  lemma PutBackKeeps(b: Outbox)
    requires Retains(b) && b.hand.Some?
    ensures Retains(PutBack(b)) && PutBack(b).Chain() == b.Chain()
  {
    assert PutBack(b).Chain() == b.Chain();
  }

  lemma SplitSizes(c: SentChunk, n: nat, rest: seq<SentChunk>)
    requires n <= |c.bytes|
    ensures Size([Head(c, n), Tail(c, n)] + rest) == Size([c] + rest)
  {
    SizeConcat([Head(c, n), Tail(c, n)], rest);
    SizeConcat([c], rest);
    SizeConcat([Head(c, n)], [Tail(c, n)]);
    assert [Head(c, n), Tail(c, n)] == [Head(c, n)] + [Tail(c, n)];
    SizeOne(c);
    SizeOne(Head(c, n));
    SizeOne(Tail(c, n));
  }

  lemma SplitQueued(stream: Bytes, c: SentChunk, n: nat, rest: seq<SentChunk>, from: nat, whole: bool)
    requires Queued(stream, [c] + rest, from, whole) && 0 < n < |c.bytes|
    ensures Queued(stream, [Head(c, n), Tail(c, n)] + rest, from, whole)
  {
    var was, now := [c] + rest, [Head(c, n), Tail(c, n)] + rest;
    assert was[0] == c && Slice(stream, c);
    SplitSlices(stream, c, n);
    forall i | 1 < i < |now| ensures now[i] == was[i - 1] {
    }
    assert now[0] == Head(c, n) && now[1] == Tail(c, n);
    hide Slice, Head, Tail;
    assert Slices(stream, now);
  }

  lemma SplitSlices(stream: Bytes, c: SentChunk, n: nat)
    requires Slice(stream, c) && 0 < n < |c.bytes|
    ensures Slice(stream, Head(c, n)) && Slice(stream, Tail(c, n))
    ensures Head(c, n).offset == c.offset && Head(c, n).End() == Tail(c, n).offset && Tail(c, n).End() == c.End()
    ensures Head(c, n).bytes != [] && Tail(c, n).bytes != []
  {
    assert Head(c, n).bytes == stream[c.offset..c.offset + n];
    assert Tail(c, n).bytes == stream[c.offset + n..c.End()];
  }

  lemma SplitKeeps(b: Outbox, n: nat)
    requires Retains(b) && b.hand.Some? && 0 < n < |b.hand.value.bytes| && b.retainedChunks < ChunkLimit(b.limit)
    ensures Retains(Split(b, n))
    ensures forall o: nat :: Has(Split(b, n).Chain(), o) <==> Has(b.Chain(), o)
  {
    var c := b.hand.value;
    assert b.Chain() == [c] + b.outbound;
    assert Split(b, n).Chain() == [Head(c, n), Tail(c, n)] + b.outbound;
    SplitSizes(c, n, b.outbound);
    SplitQueued(b.stream, c, n, b.outbound, b.sent, !b.reset);
    forall o: nat ensures Has(Split(b, n).Chain(), o) <==> Has(b.Chain(), o) {
      SplitHas(c, n, b.outbound, o);
    }
    hide Size, Stored, Has, Queued, ChunkLimit;
  }

  lemma SplitHas(c: SentChunk, n: nat, rest: seq<SentChunk>, o: nat)
    requires n <= |c.bytes|
    ensures Has([Head(c, n), Tail(c, n)] + rest, o) <==> Has([c] + rest, o)
  {
    HasConcat([Head(c, n), Tail(c, n)], rest, o);
    HasConcat([c], rest, o);
    var two := [Head(c, n), Tail(c, n)];
    assert Has(two, o) <==> Holds(two[0], o) || Holds(two[1], o);
    assert Has([c], o) <==> Holds([c][0], o);
  }

  lemma RetainQueued(stream: Bytes, c: SentChunk, rest: seq<SentChunk>, from: nat, whole: bool)
    requires Queued(stream, [c] + rest, from, whole)
    ensures Queued(stream, rest, c.End(), whole) && c.offset == from && Slice(stream, c) && c.bytes != []
  {
    var was := [c] + rest;
    assert was[0] == c;
    forall i | 0 <= i < |rest| ensures rest[i] == was[i + 1] {
    }
    assert rest != [] ==> was[1] == rest[0];
  }

  lemma RetainStored(stream: Bytes, replay: seq<SentChunk>, c: SentChunk, sent: nat, peerMax: nat)
    requires Stored(stream, replay, Smaller(sent, peerMax)) && Slice(stream, c) && c.bytes != []
    requires c.offset == sent && c.End() <= peerMax <= MAX_WIRE_OFFSET
    ensures Stored(stream, replay + [c], Smaller(c.End(), peerMax))
  {
  }

  lemma RetainKeeps(b: Outbox)
    requires Retains(b) && b.hand.Some? && b.hand.value.End() <= b.peerMax
    ensures Retains(Retain(b))
    ensures forall o: nat :: Keeps(Retain(b), o) <==> Keeps(b, o)
  {
    hide Size, Has, Queued, Stored, ChunkLimit;
    var c, r := b.hand.value, Retain(b);
    assert b.Chain() == [c] + b.outbound;
    assert r.Chain() == b.outbound;
    RetainQueued(b.stream, c, b.outbound, b.sent, !b.reset);
    RetainStored(b.stream, b.replay, c, b.sent, b.peerMax);
    SizeConcat([c], b.outbound);
    SizeConcat(b.replay, [c]);
    SizeOne(c);
    forall o: nat ensures Keeps(r, o) <==> Keeps(b, o) {
      HasConcat([c], b.outbound, o);
      HasConcat(b.replay, [c], o);
    }
  }

  /** Handing a chunk from the queue to the replay buffer never meets a limit or an overlap. */
  lemma RetainNeverFails(b: Outbox)
    requires Retains(b) && b.hand.Some? && b.hand.value.End() <= b.peerMax
    ensures var c := b.hand.value;
      && c.bytes != [] && c.End() <= MAX_WIRE_OFFSET
      && Size(b.replay) + |c.bytes| <= b.limit && |b.replay| < ChunkLimit(b.limit)
      && forall o: nat :: c.offset <= o < c.End() ==> !Has(b.replay, o)
  {
    var c := b.hand.value;
    assert b.Chain() == [c] + b.outbound && b.Chain()[0] == c;
    SizeConcat([c], b.outbound);
    SizeOne(c);
  }

  lemma {:induction false} UnackedFrom(chunks: seq<SentChunk>, contiguous: nat, ranges: seq<Range>, k: nat)
    returns (i: nat)
    requires k < |Unacked(chunks, contiguous, ranges)|
    ensures i < |chunks| && Unacked(chunks, contiguous, ranges)[k] == chunks[i]
  {
    i := SelectFrom(chunks, Keeper(contiguous, ranges), k);
  }

  lemma UnackedKeeps(replay: seq<SentChunk>, contiguous: nat, ranges: seq<Range>, o: nat)
    requires Ordered(replay) && Canonical(contiguous, ranges) && Has(replay, o)
    ensures Has(Unacked(replay, contiguous, ranges), o) || Acked(contiguous, ranges, o)
  {
    var kept := Unacked(replay, contiguous, ranges);
    UnackedAre(replay, contiguous, ranges);
    var i :| 0 <= i < |replay| && Holds(replay[i], o);
    if replay[i] in kept {
      var k :| 0 <= k < |kept| && kept[k] == replay[i];
      assert Holds(kept[k], o);
    } else {
      assert AllAcked(contiguous, ranges, replay[i]);
    }
  }

  lemma UnackedStored(stream: Bytes, replay: seq<SentChunk>, contiguous: nat, ranges: seq<Range>, limit: nat)
    requires Stored(stream, replay, limit)
    ensures Stored(stream, Unacked(replay, contiguous, ranges), limit)
  {
    var kept := Unacked(replay, contiguous, ranges);
    UnackedOrdered(replay, contiguous, ranges);
    hide Ordered, Unacked, Slice;
    forall k | 0 <= k < |kept| ensures Slice(stream, kept[k]) && kept[k].End() <= limit {
      var i := UnackedFrom(replay, contiguous, ranges, k);
    }
  }

  /** No counter underflows when acknowledged chunks are released. */
  lemma AcknowledgeFits(b: Outbox, contiguous: nat, ranges: seq<Range>)
    requires Retains(b)
    ensures var kept := Unacked(b.replay, contiguous, ranges);
      && Size(kept) <= Size(b.replay) <= b.retainedBytes && |b.replay| <= b.retainedChunks
      && Less(b.retainedBytes, Size(b.replay) - Size(kept)) == b.retainedBytes - Size(b.replay) + Size(kept)
      && Less(b.retainedChunks, |b.replay| - |kept|) == b.retainedChunks - |b.replay| + |kept|
      && (Size(kept) == Size(b.replay) ==> |kept| == |b.replay|)
  {
    UnackedSize(b.replay, contiguous, ranges);
    UnackedCount(b.replay, contiguous, ranges);
  }

  lemma {:induction false} UnackedCount(chunks: seq<SentChunk>, contiguous: nat, ranges: seq<Range>)
    requires forall i :: 0 <= i < |chunks| ==> chunks[i].bytes != []
    ensures |chunks| - |Unacked(chunks, contiguous, ranges)| <= Size(chunks) - Size(Unacked(chunks, contiguous, ranges))
  {
    if chunks != [] {
      var n := |chunks| - 1;
      UnackedSize(chunks, contiguous, ranges);
      UnackedCount(chunks[..n], contiguous, ranges);
      var kept := Unacked(chunks[..n], contiguous, ranges);
      SizePush(kept, chunks[n]);
      assert kept + [] == kept;
      hide Unacked;
    }
  }

  lemma AcknowledgeKeeps(b: Outbox, contiguous: nat, ranges: seq<Range>)
    requires Retains(b) && Canonical(contiguous, ranges)
    ensures Retains(Acknowledge(b, contiguous, ranges))
    ensures forall o: nat :: Keeps(b, o) ==>
      Keeps(Acknowledge(b, contiguous, ranges), o) || Acked(contiguous, ranges, o)
  {
    var r := Acknowledge(b, contiguous, ranges);
    assert r.Chain() == b.Chain();
    assert b.replay == [] ==> r.replay == [];
    UnackedSize(b.replay, contiguous, ranges);
    UnackedStored(b.stream, b.replay, contiguous, ranges, Smaller(b.sent, b.peerMax));
    forall o: nat | Has(b.replay, o) ensures Has(r.replay, o) || Acked(contiguous, ranges, o) {
      UnackedKeeps(b.replay, contiguous, ranges, o);
    }
    AcknowledgeFits(b, contiguous, ranges);
    hide Unacked, Size, Has, Stored, Queued, Canonical, ChunkLimit, Less;
  }

  lemma ShutdownKeeps(b: Outbox)
    requires Retains(b)
    ensures Retains(Shutdown(b))
  {
  }

  /** No counter underflows when the queue is discarded. */
  lemma DiscardFits(b: Outbox)
    requires Retains(b)
    ensures Size(b.outbound) <= b.retainedBytes && |b.outbound| <= b.retainedChunks
    ensures Less(b.retainedBytes, Size(b.outbound)) == b.retainedBytes - Size(b.outbound)
    ensures Less(b.retainedChunks, |b.outbound|) == b.retainedChunks - |b.outbound|
  {
    SizeConcat(if b.hand.Some? then [b.hand.value] else [], b.outbound);
  }

  lemma ResetKeeps(b: Outbox)
    requires Retains(b)
    ensures Retains(Reset(b))
  {
    hide Less, Size, Ordered;
    var hand := if b.hand.Some? then [b.hand.value] else [];
    SizeConcat(hand, b.outbound);
    DiscardFits(b);
    assert Reset(b).Chain() == hand;
    assert b.Chain() == hand + b.outbound;
    forall i | 0 <= i < |hand| ensures hand[i] == b.Chain()[i] {
    }
  }

  lemma StopKeeps(b: Outbox)
    requires Retains(b)
    ensures Retains(Stop(b))
  {
    assert Stop(b).Chain() == [];
  }
}
