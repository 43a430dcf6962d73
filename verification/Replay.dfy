/** Sent chunks kept for replay until they are acknowledged (src/recovery.rs). */
module Replay {
  import opened Results
  import opened Galois
  import opened Varint
  import opened AckRanges
  import opened Chunks

  type SentChunk = Chunk<()>

  /** The least number of chunks, at least eight, that allows 64 bytes to each. */
  predicate FewestChunks(maxBytes: nat, n: nat) {
    8 <= n && maxBytes <= 64 * n && (8 < n ==> 64 * (n - 1) < maxBytes)
  }

  /** src/recovery.rs, `replay_chunk_limit`. */
  function ChunkLimit(maxBytes: nat): (n: nat)
    ensures FewestChunks(maxBytes, n)
  {
    var n := (maxBytes + 63) / 64;
    if n < 8 then 8 else n
  }

  /** Every byte of the chunk is acknowledged. */
  ghost predicate AllAcked(contiguous: nat, ranges: seq<Range>, c: SentChunk) {
    forall o :: c.offset <= o < c.End() ==> Acked(contiguous, ranges, o)
  }

  /** src/recovery.rs, the test that `acknowledge` applies to a chunk. */
  predicate Covered(contiguous: nat, ranges: seq<Range>, c: SentChunk) {
    c.End() <= contiguous || exists i :: 0 <= i < |ranges| && ranges[i].start <= c.offset && c.End() <= ranges[i].end
  }

  lemma CoveredIsAllAcked(contiguous: nat, ranges: seq<Range>, c: SentChunk)
    requires Canonical(contiguous, ranges) && c.bytes != []
    ensures Covered(contiguous, ranges, c) <==> AllAcked(contiguous, ranges, c)
  {
    StretchCovered(contiguous, ranges, c.offset, c.End());
  }

  /** The chunks that an acknowledgment leaves behind. */
  function Unacked(chunks: seq<SentChunk>, contiguous: nat, ranges: seq<Range>): (r: seq<SentChunk>)
    ensures |r| <= |chunks|
  {
    Select(chunks, Keeper(contiguous, ranges))
  }

  function Keeper(contiguous: nat, ranges: seq<Range>): SentChunk -> bool {
    c => !Covered(contiguous, ranges, c)
  }

  lemma {:induction false} UnackedSize(chunks: seq<SentChunk>, contiguous: nat, ranges: seq<Range>)
    ensures Size(Unacked(chunks, contiguous, ranges)) <= Size(chunks)
    ensures |chunks| > 0 ==>
      var init := chunks[..|chunks| - 1];
      var last := chunks[|chunks| - 1];
      Unacked(chunks, contiguous, ranges) ==
        Unacked(init, contiguous, ranges) + (if Covered(contiguous, ranges, last) then [] else [last])
  {
    hide Covered, Unacked, Size;
    if chunks == [] {
      UnackedNone(contiguous, ranges);
    } else {
      var n := |chunks| - 1;
      var init, last := chunks[..n], chunks[n];
      UnackedSize(init, contiguous, ranges);
      UnackedLast(chunks, contiguous, ranges);
      SizeConcat(Unacked(init, contiguous, ranges), if Covered(contiguous, ranges, last) then [] else [last]);
      SizeConcat(init, [last]);
      assert init + [last] == chunks;
      LastSize(last);
    }
  }

  lemma UnackedNone(contiguous: nat, ranges: seq<Range>)
    ensures Unacked([], contiguous, ranges) == []
  {
  }

  lemma UnackedLast(chunks: seq<SentChunk>, contiguous: nat, ranges: seq<Range>)
    requires chunks != []
    ensures var n := |chunks| - 1;
      Unacked(chunks, contiguous, ranges) ==
        Unacked(chunks[..n], contiguous, ranges) + (if Covered(contiguous, ranges, chunks[n]) then [] else [chunks[n]])
  {
    hide Covered;
  }

  lemma LastSize(c: SentChunk)
    ensures Size<()>([]) == 0 && Size([c]) == |c.bytes|
  {
    assert [c][..0] == [];
  }

  class ReplayBuffer {
    var chunks: seq<SentChunk>
    var bytes: nat
    const maxBytes: nat
    const maxChunks: nat

    ghost predicate Valid()
      reads this
    {
      && Ordered(chunks) && bytes == Size(chunks)
      && bytes <= maxBytes && |chunks| <= maxChunks == ChunkLimit(maxBytes)
    }

    constructor (maxBytes: nat)
      ensures Valid() && chunks == [] && this.maxBytes == maxBytes
    {
      chunks, bytes := [], 0;
      this.maxBytes, maxChunks := maxBytes, ChunkLimit(maxBytes);
    }

    /** src/recovery.rs, `retain`: refuses exactly what overflows, exceeds a limit or overlaps. */
    method Retain(offset: nat, data: Bytes) returns (error: Option<RecoveryError>)
      requires Valid()
      modifies this
      ensures Valid()
      ensures error == Some(OffsetOverflow) <==> offset + |data| > MAX_WIRE_OFFSET
      ensures error == Some(Capacity) <==>
        && offset + |data| <= MAX_WIRE_OFFSET
        && (data == [] || old(bytes) + |data| > maxBytes || |old(chunks)| >= maxChunks)
      ensures error == Some(ContradictoryOverlap) <==>
        && offset + |data| <= MAX_WIRE_OFFSET && data != []
        && old(bytes) + |data| <= maxBytes && |old(chunks)| < maxChunks
        && exists o: nat :: offset <= o < offset + |data| && Has(old(chunks), o)
      ensures error.Some? ==> chunks == old(chunks) && bytes == old(bytes)
      ensures error.Some? ==> error.value in {OffsetOverflow, Capacity, ContradictoryOverlap}
      ensures error.None? ==> bytes == old(bytes) + |data|
      ensures error.None? ==>
        exists n :: 0 <= n <= |old(chunks)| && chunks == InsertAt(old(chunks), n, Chunk(offset, data, ()))
    {
      var end := offset + |data|;
      if end > MAX_WIRE_OFFSET {
        return Some(OffsetOverflow);
      }
      if data == [] || bytes + |data| > maxBytes || |chunks| >= maxChunks {
        return Some(Capacity);
      }
      var n, overlaps := FindSlot(chunks, offset, end);
      if overlaps {
        return Some(ContradictoryOverlap);
      }
      var c := Chunk(offset, data, ());
      InsertIs(chunks, n, c);
      InsertSizes(chunks, n, c, 0);
      bytes := bytes + |data|;
      chunks := InsertAt(chunks, n, c);
      return None;
    }

    /** The buffer is dropped with everything in it. */
    method Clear()
      requires Valid()
      modifies this
      ensures Valid() && chunks == []
    {
      chunks, bytes := [], 0;
    }

    /** src/recovery.rs, `acknowledge`: drops precisely the chunks all of whose bytes are acknowledged. */
    method Acknowledge(ack: AckRanges) returns (releasedBytes: nat, releasedChunks: nat)
      requires Valid() && ack.Valid() 
      modifies this
      ensures Valid()
      ensures chunks == Unacked(old(chunks), ack.contiguous, ack.ranges)
      ensures forall i :: 0 <= i < |old(chunks)| ==>
        (old(chunks)[i] in chunks <==> !AllAcked(ack.contiguous, ack.ranges, old(chunks)[i]))
      ensures releasedBytes == old(bytes) - bytes && releasedChunks == |old(chunks)| - |chunks|
    {
      hide Ordered, Canonical, Select, Size, Covered, AllAcked, Unacked;
      var kept, size := Remaining(chunks, ack.contiguous, ack.ranges);
      UnackedSize(chunks, ack.contiguous, ack.ranges);
      UnackedOrdered(chunks, ack.contiguous, ack.ranges);
      UnackedAre(chunks, ack.contiguous, ack.ranges);
      releasedBytes, releasedChunks := bytes - size, |chunks| - |kept|;
      chunks, bytes := kept, size;
    }
  }

  /** The retention loop of `acknowledge`. */
  method Remaining(chunks: seq<SentChunk>, contiguous: nat, ranges: seq<Range>)
    returns (kept: seq<SentChunk>, size: nat)
    ensures kept == Unacked(chunks, contiguous, ranges) && size == Size(kept)
  {
    hide Covered, Select, Size;
    kept, size := [], 0;
    var i := 0;
    NoneUnacked(contiguous, ranges);
    while i < |chunks|
      invariant 0 <= i <= |chunks|
      invariant kept == Unacked(chunks[..i], contiguous, ranges) && size == Size(kept)
    {
      UnackedSize(chunks[..i + 1], contiguous, ranges);
      assert chunks[..i + 1][..i] == chunks[..i];
      if !Covered(contiguous, ranges, chunks[i]) {
        SizePush(kept, chunks[i]);
        kept, size := kept + [chunks[i]], size + |chunks[i].bytes|;
      }
      i := i + 1;
    }
    assert chunks[..|chunks|] == chunks;
  }

  lemma UnackedOrdered(chunks: seq<SentChunk>, contiguous: nat, ranges: seq<Range>)
    requires Ordered(chunks)
    ensures Ordered(Unacked(chunks, contiguous, ranges))
  {
    SelectOrdered(chunks, Keeper(contiguous, ranges));
  }

  lemma NoneUnacked(contiguous: nat, ranges: seq<Range>)
    ensures Unacked([], contiguous, ranges) == [] && Size<()>([]) == 0
  {
  }

  lemma SizePush(chunks: seq<SentChunk>, c: SentChunk)
    ensures Size(chunks + [c]) == Size(chunks) + |c.bytes|
  {
    assert (chunks + [c])[..|chunks|] == chunks;
  }

  lemma UnackedAre(chunks: seq<SentChunk>, contiguous: nat, ranges: seq<Range>)
    requires Ordered(chunks) && Canonical(contiguous, ranges)
    ensures forall i :: 0 <= i < |chunks| ==>
      (chunks[i] in Unacked(chunks, contiguous, ranges) <==> !AllAcked(contiguous, ranges, chunks[i]))
  {
    forall i | 0 <= i < |chunks|
      ensures chunks[i] in Unacked(chunks, contiguous, ranges) <==> !AllAcked(contiguous, ranges, chunks[i])
    {
      CoveredIsAllAcked(contiguous, ranges, chunks[i]);
      if Covered(contiguous, ranges, chunks[i]) {
        if chunks[i] in Unacked(chunks, contiguous, ranges) {
          var k :| 0 <= k < |Unacked(chunks, contiguous, ranges)| &&
              Unacked(chunks, contiguous, ranges)[k] == chunks[i];
          var o := SelectFrom(chunks, Keeper(contiguous, ranges), k);
        }
      } else {
        var k := SelectHas(chunks, Keeper(contiguous, ranges), i);
      }
    }
  }
}
