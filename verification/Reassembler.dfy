/** The receive buffer: out-of-order records become one in-order byte stream (src/recovery.rs). */
module Reassembler {
  import opened Results
  import opened Galois
  import opened Varint
  import opened AckRanges
  import opened Chunks
  import opened Gaps
  import opened Budget
  import opened Charges
  import opened Replay

  const RANGE_SIZE: nat := 16

  /** The chunks hold exactly the accepted bytes that were not read and released. */
  ghost predicate Coherent(chunks: seq<BufferedChunk>, content: map<nat, byte>, next: nat) {
    && Ordered(chunks) && Within(chunks, content) && next <= MAX_WIRE_OFFSET
    && forall o: nat :: o in content <==> o < next || Has(chunks, o)
  }

  predicate Passed(chunks: seq<BufferedChunk>, next: nat, end: nat) {
    end < next || exists i :: 0 <= i < |chunks| && chunks[i].End() > end
  }

  /** Nothing lies past a final offset once it is known. */
  ghost predicate Final(chunks: seq<BufferedChunk>, next: nat, finalOffset: Option<nat>) {
    finalOffset.Some? ==> finalOffset.value <= MAX_WIRE_OFFSET && !Passed(chunks, next, finalOffset.value)
  }

  /** No chunk is kept once its bytes are both read and acknowledged. */
  ghost predicate Prompt(chunks: seq<BufferedChunk>, next: nat, ack: nat) {
    forall i :: 0 <= i < |chunks| ==> chunks[i].End() > Smaller(next, ack)
  }

  /** Why a record is refused, before its size is weighed against the limits. */
  ghost function Fault(chunks: seq<BufferedChunk>, content: map<nat, byte>, next: nat, finalOffset: Option<nat>,
                       offset: nat, data: Bytes, fin: bool): Option<RecoveryError>
  {
    var end := offset + |data|;
    if end > MAX_WIRE_OFFSET then Some(OffsetOverflow)
    else if data == [] then Some(InvalidRange)
    else if finalOffset.Some? && end > finalOffset.value then Some(FinalOffset)
    else if fin && ((finalOffset.Some? && finalOffset.value != end) || Passed(chunks, next, end)) then Some(FinalOffset)
    else if Clashes(chunks, content, offset, data, offset, end) then Some(ContradictoryOverlap)
    else None
  }

  /** Whether the memory that is left cannot pay for the new bytes: one whole chunk, or copies of the gaps. */
  predicate Starved(free: int, gaps: seq<Range>, low: nat, end: nat, extra: int)
    requires forall i :: 0 <= i < |gaps| ==> gaps[i].start <= gaps[i].end
  {
    if gaps == [Range(low, end)] then extra > free else Length(gaps) + |gaps| * RANGE_SIZE > free
  }

  /** Whether the new bytes are too many for the limits or for the memory that is left. */
  predicate Short(bytes: nat, count: nat, maxBytes: nat, maxChunks: nat, free: int, gaps: seq<Range>, low: nat,
                  end: nat, extra: int)
    requires forall i :: 0 <= i < |gaps| ==> gaps[i].start <= gaps[i].end
  {
    bytes + Length(gaps) > maxBytes || count + |gaps| > maxChunks || Starved(free, gaps, low, end, extra)
  }

  /** What a whole record's reservation comes to when it is stored. */
  function Kept(charge: Charge, size: nat, precharged: bool): nat {
    if precharged || size <= charge.bytes then charge.bytes else size
  }

  /**
   * A record has been stored in its gaps: one chunk to a gap, the bytes of the gaps, and the memory of the whole
   * record if nothing of it was there, else of the copies.
   */
  ghost predicate Stored(count: nat, bytes: nat, used: int, count': nat, bytes': nat, used': int, gaps: seq<Range>,
                         low: nat, end: nat, kept: nat)
  {
    && InOrder(gaps, 0, MAX_WIRE_OFFSET)
    && count' == count + |gaps| && bytes' == bytes + Length(gaps)
    && used' == used + if gaps == [Range(low, end)] then kept else Length(gaps)
  }

  lemma StoredNothing(count: nat, bytes: nat, used: int, low: nat, end: nat, kept: nat)
    ensures Stored(count, bytes, used, count, bytes, used, [], low, end, kept)
  {
  }

  lemma ExtraIgnored(chunks: seq<BufferedChunk>, bytes: nat, maxBytes: nat, maxChunks: nat, free: int,
                     gaps: seq<Range>, low: nat, end: nat, extra: int)
    requires Missing(chunks, low, end, gaps) && gaps != [Range(low, end)]
    ensures Short(bytes, |chunks|, maxBytes, maxChunks, free, gaps, low, end, 0) ==
      Short(bytes, |chunks|, maxBytes, maxChunks, free, gaps, low, end, extra)
  {
  }

  lemma CoherentIs(chunks: seq<BufferedChunk>, content: map<nat, byte>, next: nat)
    requires Coherent(chunks, content, next)
    ensures Ordered(chunks) && Within(chunks, content)
  {
  }

  lemma ClashesSplit(chunks: seq<BufferedChunk>, content: map<nat, byte>, offset: nat, data: Bytes, low: nat, mid: nat,
                     high: nat)
    requires low <= mid <= high
    ensures Clashes(chunks, content, offset, data, low, high) <==>
      Clashes(chunks, content, offset, data, low, mid) || Clashes(chunks, content, offset, data, mid, high)
  {
  }

  lemma Untouched(chunks: seq<BufferedChunk>, content: map<nat, byte>, next: nat, offset: nat, data: Bytes)
    requires forall o: nat :: offset <= o < offset + |data| ==> o in content
    ensures Accept(content, offset, data) == content
  {
  }

  lemma FinalGrows(chunks: seq<BufferedChunk>, r: seq<BufferedChunk>, gaps: seq<Range>, low: nat, end: nat, next: nat,
                   ack: nat, finalOffset: Option<nat>, fin: bool)
    requires Grown(chunks, r, gaps, low, end) && Final(chunks, next, finalOffset) && Prompt(chunks, next, ack)
    requires next <= low <= end <= MAX_WIRE_OFFSET
    requires finalOffset.Some? ==> end <= finalOffset.value
    requires fin ==> !Passed(chunks, next, end)
    ensures Final(r, next, if fin then Some(end) else finalOffset) && Prompt(r, next, ack)
  {
    hide Has, InRanges, Ordered;
  }

  lemma CoherentGrows(chunks: seq<BufferedChunk>, r: seq<BufferedChunk>, content: map<nat, byte>, gaps: seq<Range>,
                      offset: nat, data: Bytes, low: nat, next: nat)
    requires Coherent(chunks, content, next) && next <= low && offset <= low <= offset + |data|
    requires low == next || low == offset
    requires Missing(chunks, low, offset + |data|, gaps) && Grown(chunks, r, gaps, low, offset + |data|)
    requires Within(r, Accept(content, offset, data))
    ensures Coherent(r, Accept(content, offset, data), next)
  {
    forall o: nat | InRanges(gaps, o) ensures low <= o < offset + |data| {
    }
    hide Has, InRanges, Ordered, Within;
    var after := Accept(content, offset, data);
    forall o: nat ensures o in after <==> o < next || Has(r, o) {
      assert o in after <==> o in content || offset <= o < offset + |data|;
    }
  }

  lemma AcceptExtends(chunks: seq<BufferedChunk>, content: map<nat, byte>, next: nat, offset: nat, data: Bytes,
                      low: nat)
    requires Coherent(chunks, content, next) && next <= low && offset <= low
    ensures Within(chunks, Accept(content, offset, data))
    ensures forall o: nat :: low <= o < offset + |data| && !Has(chunks, o) ==>
      o in Accept(content, offset, data) && Accept(content, offset, data)[o] == data[o - offset]
  {
  }

  lemma WholeGap(chunks: seq<BufferedChunk>, low: nat, end: nat)
    requires low < end && forall o: nat :: low <= o < end ==> !Has(chunks, o)
    ensures Missing(chunks, low, end, [Range(low, end)]) && Length([Range(low, end)]) == end - low
  {
    forall o: nat ensures InRanges([Range(low, end)], o) <==> low <= o < end {
      InSingle(Range(low, end), o);
    }
  }

  /** One chunk for everything of `data` from `low` on keeps every part of the buffer's meaning. */
  lemma Installed(chunks: seq<BufferedChunk>, content: map<nat, byte>, next: nat, offset: nat, data: Bytes, low: nat,
                  n: nat, c: BufferedChunk)
    requires Coherent(chunks, content, next) && Fits(chunks, n, c)
    requires next <= low && offset <= low < offset + |data| <= MAX_WIRE_OFFSET && (low == next || low == offset)
    requires forall o: nat :: low <= o < offset + |data| ==> !Has(chunks, o)
    requires c.offset == low && c.bytes == data[low - offset..]
    ensures Grown(chunks, InsertAt(chunks, n, c), [Range(low, offset + |data|)], low, offset + |data|)
    ensures Coherent(InsertAt(chunks, n, c), Accept(content, offset, data), next)
    ensures UnreadSize(InsertAt(chunks, n, c), next) == UnreadSize(chunks, next) + |c.bytes|
  {
    hide Has, InRanges, Within, Ordered, Accept, UnreadSize, Missing, Grown;
    var end := offset + |data|;
    var gap, after := Range(low, end), Accept(content, offset, data);
    AcceptExtends(chunks, content, next, offset, data, low);
    InstalledHolds(chunks, content, next, offset, data, low, c);
    WithinInsert(chunks, n, c, after);
    GrownNone(chunks, low, end);
    GrownOnce(chunks, chunks, [], low, end, n, c, gap);
    assert [] + [gap] == [gap];
    WholeGap(chunks, low, end);
    InsertSizes(chunks, n, c, next);
    CoherentGrows(chunks, InsertAt(chunks, n, c), content, [gap], offset, data, low, next);
  }

  lemma InstalledHolds(chunks: seq<BufferedChunk>, content: map<nat, byte>, next: nat, offset: nat, data: Bytes,
                       low: nat, c: BufferedChunk)
    requires Coherent(chunks, content, next)
    requires next <= low && offset <= low < offset + |data| <= MAX_WIRE_OFFSET && (low == next || low == offset)
    requires forall o: nat :: low <= o < offset + |data| ==> !Has(chunks, o)
    requires c.offset == low && c.bytes == data[low - offset..]
    ensures var after := Accept(content, offset, data);
      forall o: nat :: Holds(c, o) ==> o in after && after[o] == c.bytes[o - c.offset]
  {
    AcceptExtends(chunks, content, next, offset, data, low);
    var after := Accept(content, offset, data);
    forall o: nat | Holds(c, o) ensures o in after && after[o] == c.bytes[o - c.offset] {
      assert !Has(chunks, o);
    }
  }

  lemma NothingMissing(chunks: seq<BufferedChunk>, content: map<nat, byte>, next: nat, offset: nat, data: Bytes,
                       low: nat, finalOffset: Option<nat>, fin: bool)
    requires Coherent(chunks, content, next) && (low == next || low == offset)
    requires low <= offset + |data| <= MAX_WIRE_OFFSET
    requires Missing(chunks, low, offset + |data|, [])
    requires Final(chunks, next, finalOffset) && (fin ==> !Passed(chunks, next, offset + |data|))
    ensures Accept(content, offset, data) == content
    ensures Final(chunks, next, if fin then Some(offset + |data|) else finalOffset)
  {
    forall o: nat | offset <= o < offset + |data| ensures o in content {
      assert low <= o ==> !InRanges([], o);
    }
  }

  /** After the gaps are filled, the incoming charge is still held and nobody else was touched. */
  lemma Repaid(first: map<object, nat>, ledger: map<object, nat>, was: seq<BufferedChunk>, filled: seq<BufferedChunk>,
               scratch: Charge, charge: Charge)
    requires charge.token in first && charge.token !in Tokens(was) && scratch.token !in first
    requires Others(ledger, filled) - {scratch.token} ==
        Others(first[scratch.token := scratch.bytes], was) - {scratch.token}
    ensures charge.token in ledger && ledger[charge.token] == first[charge.token] && charge.token !in Tokens(filled)
    ensures charge.token != scratch.token
    ensures Others(ledger, filled) - {scratch.token} == Others(first, was)
  {
    hide Tokens;
    assert charge.token in Others(first[scratch.token := scratch.bytes], was) - {scratch.token};
    assert Others(ledger, filled)[charge.token] == first[charge.token];
    assert first[scratch.token := scratch.bytes] - {scratch.token} == first;
    assert Others(first[scratch.token := scratch.bytes], was) - {scratch.token} == Others(first, was);
  }

  lemma AllRead(chunks: seq<BufferedChunk>, content: map<nat, byte>, next: nat, offset: nat, data: Bytes,
                finalOffset: Option<nat>, fin: bool)
    requires Coherent(chunks, content, next) && offset + |data| <= next
    requires Final(chunks, next, finalOffset) && (fin ==> !Passed(chunks, next, offset + |data|))
    ensures Accept(content, offset, data) == content
    ensures !Clashes(chunks, content, offset, data, offset + |data|, offset + |data|)
    ensures Final(chunks, next, if fin then Some(offset + |data|) else finalOffset)
  {
  }

  lemma NoClash(chunks: seq<BufferedChunk>, content: map<nat, byte>, offset: nat, data: Bytes, low: nat)
    requires forall o: nat :: low <= o < offset + |data| ==> !Has(chunks, o)
    ensures !Clashes(chunks, content, offset, data, low, offset + |data|)
  {
  }

  lemma PassedIs(chunks: seq<BufferedChunk>, content: map<nat, byte>, next: nat, end: nat)
    requires Coherent(chunks, content, next)
    ensures Passed(chunks, next, end) <==> end < next || exists o: nat :: end <= o && o in content
  {
    if i :| 0 <= i < |chunks| && chunks[i].End() > end {
      var o := Larger(end, chunks[i].offset);
      assert Holds(chunks[i], o) && Has(chunks, o);
    }
    if o: nat :| end <= o && o in content && next <= o {
      assert Has(chunks, o);
    }
  }

  // ----- reading

  lemma {:induction false} UnreadWhole(chunks: seq<BufferedChunk>, next: nat)
    requires forall i :: 0 <= i < |chunks| ==> next <= chunks[i].offset
    ensures UnreadSize(chunks, next) == Size(chunks)
  {
    if chunks != [] {
      UnreadWhole(chunks[..|chunks| - 1], next);
    }
  }

  lemma UnreadAdvances(chunks: seq<BufferedChunk>, i: nat, next: nat, count: nat)
    requires Ordered(chunks) && i < |chunks| && chunks[i].offset <= next <= next + count <= chunks[i].End()
    ensures UnreadSize(chunks, next + count) + count == UnreadSize(chunks, next)
  {
    hide UnreadSize;
    var a, c, b := chunks[..i], chunks[i], chunks[i + 1..];
    assert chunks == a + [c] + b;
    UnreadOne(c, next);
    UnreadOne(c, next + count);
    UnreadNone(a, next);
    UnreadNone(a, next + count);
    UnreadWhole(b, next);
    UnreadWhole(b, next + count);
    UnreadConcat(a + [c], b, next);
    UnreadConcat(a, [c], next);
    UnreadConcat(a + [c], b, next + count);
    UnreadConcat(a, [c], next + count);
  }

  lemma UnreadOne(c: BufferedChunk, next: nat)
    ensures UnreadSize([c], next) == Unread(c.offset, c.End(), next)
  {
    assert [c][..0] == [];
  }

  /** Reading on inside one chunk, before that chunk is released. */
  lemma ReadOn(chunks: seq<BufferedChunk>, content: map<nat, byte>, next: nat, ack: nat, finalOffset: Option<nat>,
               i: nat, count: nat)
    requires Coherent(chunks, content, next) && Final(chunks, next, finalOffset) && Prompt(chunks, next, ack)
    requires i < |chunks| && chunks[i].offset <= next < next + count <= chunks[i].End()
    ensures Coherent(chunks, content, next + count) && Final(chunks, next + count, finalOffset)
    ensures UnreadSize(chunks, next + count) + count == UnreadSize(chunks, next)
    ensures forall j :: 0 <= j < |chunks| && j != i ==> chunks[j].End() > Smaller(next + count, ack)
    ensures chunks[i].End() > Smaller(next + count, ack) ==> Prompt(chunks, next + count, ack)
  {
    UnreadAdvances(chunks, i, next, count);
    forall o: nat | next <= o < next + count ensures o in content {
      assert Holds(chunks[i], o);
      assert Has(chunks, o);
    }
    hide UnreadSize;
    forall j | 0 <= j < |chunks| && j != i ensures chunks[j].End() > Smaller(next + count, ack) {
      assert j < i ==> chunks[j].End() <= chunks[i].offset;
      assert j > i ==> chunks[i].End() <= chunks[j].offset;
    }
  }

  lemma GiveUpCoherent(chunks: seq<BufferedChunk>, content: map<nat, byte>, next: nat, i: nat)
    requires Coherent(chunks, content, next) && i < |chunks| && chunks[i].End() <= next
    ensures Coherent(RemoveAt(chunks, i), content, next)
  {
    RemoveOrdered(chunks, i);
    var r := RemoveAt(chunks, i);
    forall o: nat ensures Has(chunks, o) <==> Has(r, o) || Holds(chunks[i], o) {
      RemoveHas(chunks, i, o);
    }
    RemoveWithin(chunks, content, i);
    hide RemoveAt, Has, Within, Ordered;
  }

  lemma RemoveWithin(chunks: seq<BufferedChunk>, content: map<nat, byte>, i: nat)
    requires Within(chunks, content) && i < |chunks|
    ensures Within(RemoveAt(chunks, i), content)
  {
    RemoveInserts(chunks, i);
    hide RemoveAt, InsertAt, Holds;
  }

  lemma GiveUp(chunks: seq<BufferedChunk>, content: map<nat, byte>, next: nat, ack: nat, finalOffset: Option<nat>,
               i: nat)
    requires Coherent(chunks, content, next) && Final(chunks, next, finalOffset)
    requires i < |chunks| && chunks[i].End() <= next
    requires forall j :: 0 <= j < |chunks| && j != i ==> chunks[j].End() > Smaller(next, ack)
    ensures Coherent(RemoveAt(chunks, i), content, next) && Final(RemoveAt(chunks, i), next, finalOffset)
    ensures Prompt(RemoveAt(chunks, i), next, ack) && |RemoveAt(chunks, i)| < |chunks|
  {
    GiveUpCoherent(chunks, content, next, i);
    RemoveInserts(chunks, i);
    var r := RemoveAt(chunks, i);
    assert |r| == |chunks| - 1;
    hide RemoveAt, InsertAt, Coherent;
  }

  lemma SpellsNone(content: map<nat, byte>, next: nat)
    ensures Spells(content, next, [])
  {
  }

  lemma NothingNext(chunks: seq<BufferedChunk>, content: map<nat, byte>, next: nat, n: nat)
    requires Coherent(chunks, content, next) && n <= |chunks|
    requires forall i :: n <= i < |chunks| ==> next < chunks[i].offset
    requires n > 0 ==> chunks[n - 1].End() <= next
    ensures next !in content
  {
    forall i | 0 <= i < |chunks| ensures !Holds(chunks[i], next) {
      assert i < n - 1 ==> chunks[i].End() <= chunks[n - 1].offset;
    }
  }

  lemma Reads(chunks: seq<BufferedChunk>, content: map<nat, byte>, next: nat, i: nat, count: nat)
    requires Coherent(chunks, content, next) && i < |chunks| && chunks[i].offset <= next
    requires next + count <= chunks[i].End()
    ensures Spells(content, next, chunks[i].bytes[next - chunks[i].offset..][..count])
  {
    var bytes := chunks[i].bytes[next - chunks[i].offset..][..count];
    forall o: nat | next <= o < next + |bytes| ensures o in content && content[o] == bytes[o - next] {
      assert Holds(chunks[i], o);
    }
  }

  lemma Released(from: seq<BufferedChunk>, to: seq<BufferedChunk>, content: map<nat, byte>, next: nat, ack: nat,
                 finalOffset: Option<nat>, before: nat)
    requires Coherent(from, content, next) && Final(from, next, finalOffset)
    requires Shrunk(from, to, before) && before == Smaller(next, ack)
    requires forall i :: 0 <= i < |to| ==> to[i].End() > before
    ensures Coherent(to, content, next) && Final(to, next, finalOffset) && Prompt(to, next, ack)
  {
    forall i, o: nat | 0 <= i < |to| && Holds(to[i], o)
      ensures o in content && content[o] == to[i].bytes[o - to[i].offset]
    {
      var k :| 0 <= k < |from| && from[k] == to[i];
      assert Holds(from[k], o);
    }
    hide Has, Holds;
  }

  /** Writes `part` at `start` and leaves the rest alone. */
  method CopyOut(output: array<byte>, start: nat, part: Bytes)
    requires start + |part| <= output.Length
    modifies output
    ensures output[..start + |part|] == old(output[..start]) + part
    ensures output[start + |part|..] == old(output[start + |part|..])
  {
    forall k | 0 <= k < |part| {
      output[start + k] := part[k];
    }
  }

  class Reassembler {
    var chunks: seq<BufferedChunk>
    var nextOffset: nat
    var ackOffset: nat
    var finalOffset: Option<nat>
    var bytes: nat
    const maxBytes: nat
    const maxChunks: nat
    const budget: MemoryBudget

    /** The first accepted byte at every offset: the stream this buffer stands for. */
    ghost var content: map<nat, byte>

    ghost predicate Valid()
      reads this, budget
    {
      && Coherent(chunks, content, nextOffset)
      && Final(chunks, nextOffset, finalOffset) && Prompt(chunks, nextOffset, ackOffset)
      && bytes == UnreadSize(chunks, nextOffset) && bytes <= maxBytes && |chunks| <= maxChunks
      && FewestChunks(maxBytes, maxChunks)
      && budget.Valid() && Owned(budget.ledger, chunks)
    }

    /** What `Valid` says about the buffer alone. */
    ghost predicate Sound()
      reads this
    {
      && Coherent(chunks, content, nextOffset)
      && Final(chunks, nextOffset, finalOffset) && Prompt(chunks, nextOffset, ackOffset)
      && bytes == UnreadSize(chunks, nextOffset) && bytes <= maxBytes && |chunks| <= maxChunks
      && FewestChunks(maxBytes, maxChunks)
    }

    /** The reservations of everyone else. */
    ghost function Rest(): map<object, nat>
      reads this, budget
    {
      Others(budget.ledger, chunks)
    }

    constructor (maxBytes: nat, budget: MemoryBudget)
      requires budget.Valid()
      ensures Valid() && fresh(this) && this.budget == budget && this.maxBytes == maxBytes
      ensures content == map[] && nextOffset == 0 && ackOffset == 0 && finalOffset == None
      ensures Rest() == budget.ledger && chunks == [] && bytes == 0
      ensures 8 <= maxChunks && maxBytes <= 64 * maxChunks && (8 < maxChunks ==> 64 * (maxChunks - 1) < maxBytes)
    {
      chunks, nextOffset, ackOffset, finalOffset, bytes := [], 0, 0, None, 0;
      this.maxBytes, maxChunks, this.budget := maxBytes, ChunkLimit(maxBytes), budget;
      content := map[];
    }

    /** An incoming charge that is not kept goes back to the budget. */
    method DropIncoming(charge: Charge)
      requires Valid() && budget.Holds(charge) && charge.token !in Tokens(chunks)
      modifies budget
      ensures Valid() && Rest() == old(Rest()) - {charge.token}
      ensures budget.ledger == old(budget.ledger) - {charge.token} && budget.used == old(budget.used) - charge.bytes
    {
      hide Coherent, Final, Prompt, UnreadSize;
      ghost var was := budget.ledger;
      budget.Drop(charge);
      OwnedKeeps(was, budget.ledger, chunks);
      assert was - {charge.token} - Tokens(chunks) == was - Tokens(chunks) - {charge.token};
    }

    method Install(offset: nat, data: Bytes, low: nat, fin: bool, charge: Charge)
      requires Valid() && budget.Holds(charge) && charge.token !in Tokens(chunks) && |data| <= charge.bytes
      requires nextOffset <= low && offset <= low < offset + |data| <= MAX_WIRE_OFFSET
      requires low == nextOffset || low == offset
      requires forall o: nat :: low <= o < offset + |data| ==> !Has(chunks, o)
      requires finalOffset.Some? ==> offset + |data| <= finalOffset.value
      requires fin ==> !Passed(chunks, nextOffset, offset + |data|)
      requires bytes + (offset + |data| - low) <= maxBytes && |chunks| < maxChunks
      modifies this
      ensures Valid() && Rest() == old(Rest()) - {charge.token}
      ensures nextOffset == old(nextOffset) && ackOffset == old(ackOffset)
      ensures content == Accept(old(content), offset, data)
      ensures finalOffset == if fin then Some(offset + |data|) else old(finalOffset)
      ensures |chunks| == |old(chunks)| + 1 && bytes == old(bytes) + (offset + |data| - low)
    {
      hide Owned, Has, Coherent, UnreadSize, Tokens, Passed, Accept, Final, Prompt, Grown, Within;
      CoherentIs(chunks, content, nextOffset);
      var end := offset + |data|;
      var n, overlaps := FindSlot(chunks, low, end);
      var c := Chunk(low, data[low - offset..], charge);
      ghost var was := chunks;
      Installed(chunks, content, nextOffset, offset, data, low, n, c);
      OwnedInsert(budget.ledger, chunks, n, c);
      chunks, bytes := InsertAt(chunks, n, c), bytes + |c.bytes|;
      FinalGrows(was, chunks, [Range(low, end)], low, end, nextOffset, ackOffset, finalOffset, fin);
      content := Accept(content, offset, data);
      if fin {
        finalOffset := Some(end);
      }
      assert budget.ledger - (Tokens(was) + {charge.token}) == budget.ledger - Tokens(was) - {charge.token};
    }

    /** A record that touches no buffered byte becomes one chunk. */
    method PlaceWhole(offset: nat, data: Bytes, low: nat, fin: bool, charge: Charge, precharged: bool)
      returns (error: Option<RecoveryError>)
      requires Valid() && budget.Holds(charge) && charge.token !in Tokens(chunks)
      requires precharged ==> |data| <= charge.bytes
      requires nextOffset <= low && offset <= low < offset + |data| <= MAX_WIRE_OFFSET
      requires low == nextOffset || low == offset
      requires forall o: nat :: low <= o < offset + |data| ==> !Has(chunks, o)
      requires finalOffset.Some? ==> offset + |data| <= finalOffset.value
      requires fin ==> !Passed(chunks, nextOffset, offset + |data|)
      modifies this, budget
      ensures Valid() && Rest() == old(Rest()) - {charge.token}
      ensures nextOffset == old(nextOffset) && ackOffset == old(ackOffset)
      ensures error == if Short(old(bytes), |old(chunks)|, maxBytes, maxChunks, budget.limit - old(budget.used),
                                [Range(low, offset + |data|)], low, offset + |data|,
                                if precharged then 0 else |data| - charge.bytes)
                       then Some(Capacity) else None
      ensures error.Some? ==> chunks == old(chunks) && bytes == old(bytes)
      ensures error.Some? ==> content == old(content) && finalOffset == old(finalOffset)
      ensures error.None? ==> content == Accept(old(content), offset, data)
      ensures error.None? ==> finalOffset == if fin then Some(offset + |data|) else old(finalOffset)
      ensures error.Some? ==> budget.used == old(budget.used) - charge.bytes
      ensures error.None? ==>
        Stored(|old(chunks)|, old(bytes), old(budget.used) - charge.bytes, |chunks|, bytes, budget.used,
               [Range(low, offset + |data|)], low, offset + |data|, Kept(charge, |data|, precharged))
    {
      hide Clashes, Coherent, Final, Prompt, Has, Within, InRanges, UnreadSize, FewestChunks, Passed, Accept, Ordered;
      var end := offset + |data|;
      ghost var gap := Range(low, end);
      assert Length([gap]) == end - low by { assert [gap][..0] == []; }
      if bytes + (end - low) > maxBytes || |chunks| >= maxChunks {
        DropIncoming(charge);
        return Some(Capacity);
      }
      var held := charge;
      if !precharged {
        var ok;
        ok, held := budget.Grow(charge, |data|);
        if !ok {
          DropIncoming(held);
          return Some(Capacity);
        }
      }
      Install(offset, data, low, fin, held);
      return None;
    }

    /** The second half of `insert_overlapping_record`: pays for the gaps and fills them. */
    method StoreGaps(offset: nat, data: Bytes, low: nat, fin: bool, charge: Charge, gaps: seq<Range>)
      returns (error: Option<RecoveryError>)
      requires Valid() && budget.Holds(charge) && charge.token !in Tokens(chunks)
      requires nextOffset <= low && offset <= low < offset + |data| <= MAX_WIRE_OFFSET
      requires low == nextOffset || low == offset
      requires Missing(chunks, low, offset + |data|, gaps) && gaps != []
      requires finalOffset.Some? ==> offset + |data| <= finalOffset.value
      requires fin ==> !Passed(chunks, nextOffset, offset + |data|)
      requires bytes + Length(gaps) <= maxBytes && |chunks| + |gaps| <= maxChunks
      modifies this, budget
      ensures Valid() && Rest() == old(Rest()) - {charge.token}
      ensures nextOffset == old(nextOffset) && ackOffset == old(ackOffset)
      ensures error ==
        if old(budget.used) + Length(gaps) + |gaps| * RANGE_SIZE > budget.limit then Some(Capacity) else None
      ensures error.Some? ==> chunks == old(chunks) && bytes == old(bytes)
      ensures error.Some? ==> content == old(content) && finalOffset == old(finalOffset)
      ensures error.None? ==> content == Accept(old(content), offset, data)
      ensures error.None? ==> finalOffset == if fin then Some(offset + |data|) else old(finalOffset)
      ensures error.Some? ==> budget.used == old(budget.used) - charge.bytes
      ensures error.None? ==>
        && |chunks| == |old(chunks)| + |gaps| && bytes == old(bytes) + Length(gaps)
        && budget.used == old(budget.used) + Length(gaps) - charge.bytes
    {
      hide Coherent, UnreadSize, Passed, Accept, Final, Prompt, Has, InRanges, Within, Ordered, Grown, Owned, Tokens;
      hide Others, FewestChunks, MemoryBudget.Valid;
      CoherentIs(chunks, content, nextOffset);
      AcceptExtends(chunks, content, nextOffset, offset, data, low);
      var end := offset + |data|;
      ghost var was, first := chunks, budget.ledger;
      var reserved := budget.Reserve(Length(gaps) + |gaps| * RANGE_SIZE);
      if reserved.None? {
        DropIncoming(charge);
        return Some(Capacity);
      }
      var scratch := reserved.value;
      assert scratch.token !in first;
      OwnedFresh(first, chunks, scratch);
      var filled, rest := FillGaps(budget, chunks, gaps, low, offset, data, scratch, Accept(content, offset, data),
                                   nextOffset);
      Repaid(first, budget.ledger, was, filled, scratch, charge);
      FinalGrows(was, filled, gaps, low, end, nextOffset, ackOffset, finalOffset, fin);
      CoherentGrows(was, filled, content, gaps, offset, data, low, nextOffset);
      chunks, bytes := filled, bytes + Length(gaps);
      content := Accept(content, offset, data);
      if fin {
        finalOffset := Some(end);
      }
      assert Valid();
      DropIncoming(rest);
      DropIncoming(charge);
      return None;
    }

    /** src/recovery.rs, `insert_overlapping_record`: stores exactly what is missing, or nothing. */
    method PlaceGaps(offset: nat, data: Bytes, low: nat, fin: bool, charge: Charge, ghost precharged: bool)
      returns (error: Option<RecoveryError>, ghost gaps: seq<Range>)
      requires Valid() && budget.Holds(charge) && charge.token !in Tokens(chunks)
      requires nextOffset <= low && offset <= low < offset + |data| <= MAX_WIRE_OFFSET
      requires low == nextOffset || low == offset
      requires exists o: nat :: low <= o < offset + |data| && Has(chunks, o)
      requires finalOffset.Some? ==> offset + |data| <= finalOffset.value
      requires fin ==> !Passed(chunks, nextOffset, offset + |data|)
      modifies this, budget
      ensures Valid() && Rest() == old(Rest()) - {charge.token}
      ensures nextOffset == old(nextOffset) && ackOffset == old(ackOffset)
      ensures Missing(old(chunks), low, offset + |data|, gaps) && gaps != [Range(low, offset + |data|)]
      ensures error ==
        if Clashes(old(chunks), old(content), offset, data, low, offset + |data|) then Some(ContradictoryOverlap)
        else if gaps != [] && Short(old(bytes), |old(chunks)|, maxBytes, maxChunks, budget.limit - old(budget.used),
                                    gaps, low, offset + |data|, 0) then Some(Capacity)
        else None
      ensures error.Some? ==> chunks == old(chunks) && bytes == old(bytes)
      ensures error.Some? ==> content == old(content) && finalOffset == old(finalOffset)
      ensures error.None? ==> content == Accept(old(content), offset, data)
      ensures error.None? ==> finalOffset == if fin then Some(offset + |data|) else old(finalOffset)
      ensures error.Some? ==> budget.used == old(budget.used) - charge.bytes
      ensures error.None? ==>
        Stored(|old(chunks)|, old(bytes), old(budget.used) - charge.bytes, |chunks|, bytes, budget.used, gaps, low,
               offset + |data|, Kept(charge, |data|, precharged))
    {
      hide Owned, Coherent, UnreadSize, Tokens, Passed, Accept, Final, Prompt, Others, Within, Clashes, Ordered;
      CoherentIs(chunks, content, nextOffset);
      var end := offset + |data|;
      var clash := CompareOverlaps(chunks, content, offset, data, low, end);
      var missing := FindGaps(chunks, low, end);
      gaps := missing;
      assert gaps != [Range(low, end)] by {
        var o: nat :| low <= o < end && Has(chunks, o);
        InSingle(Range(low, end), o);
        assert !InRanges(gaps, o);
      }
      hide Has, InRanges, Missing;
      if clash {
        DropIncoming(charge);
        return Some(ContradictoryOverlap), gaps;
      }
      if missing == [] {
        NothingMissing(chunks, content, nextOffset, offset, data, low, finalOffset, fin);
        if fin {
          finalOffset := Some(end);
        }
        DropIncoming(charge);
        return None, gaps;
      }
      if bytes + Length(missing) > maxBytes || |chunks| + |missing| > maxChunks {
        DropIncoming(charge);
        return Some(Capacity), gaps;
      }
      error := StoreGaps(offset, data, low, fin, charge, missing);
    }

    /** The part of `insert_record_with_reservation` that stores: a record past what was read, whole or in its gaps. */
    method Place(offset: nat, data: Bytes, low: nat, fin: bool, charge: Charge, precharged: bool)
      returns (error: Option<RecoveryError>, ghost gaps: seq<Range>)
      requires Valid() && budget.Holds(charge) && charge.token !in Tokens(chunks)
      requires precharged ==> |data| <= charge.bytes
      requires nextOffset <= low && offset <= low < offset + |data| <= MAX_WIRE_OFFSET
      requires low == nextOffset || low == offset
      requires finalOffset.Some? ==> offset + |data| <= finalOffset.value
      requires fin ==> !Passed(chunks, nextOffset, offset + |data|)
      modifies this, budget
      ensures Valid() && Rest() == old(Rest()) - {charge.token}
      ensures nextOffset == old(nextOffset) && ackOffset == old(ackOffset)
      ensures Missing(old(chunks), low, offset + |data|, gaps)
      ensures error ==
        if Clashes(old(chunks), old(content), offset, data, low, offset + |data|) then Some(ContradictoryOverlap)
        else if gaps != [] && Short(old(bytes), |old(chunks)|, maxBytes, maxChunks, budget.limit - old(budget.used),
                                    gaps, low, offset + |data|, if precharged then 0 else |data| - charge.bytes)
        then Some(Capacity)
        else None
      ensures error.Some? ==> chunks == old(chunks) && bytes == old(bytes)
      ensures error.Some? ==> content == old(content) && finalOffset == old(finalOffset)
      ensures error.None? ==> content == Accept(old(content), offset, data)
      ensures error.None? ==> finalOffset == if fin then Some(offset + |data|) else old(finalOffset)
      ensures error.Some? ==> budget.used == old(budget.used) - charge.bytes
      ensures error.None? ==>
        Stored(|old(chunks)|, old(bytes), old(budget.used) - charge.bytes, |chunks|, bytes, budget.used, gaps, low,
               offset + |data|, Kept(charge, |data|, precharged))
    {
      hide Owned, Coherent, UnreadSize, Tokens, Accept, Final, Prompt, Others, Ordered, Within, Clashes, Passed;
      hide Missing, Stored, Kept, Short, FewestChunks, MemoryBudget.Valid;
      CoherentIs(chunks, content, nextOffset);
      var end := offset + |data|;
      var slot, overlaps := FindSlot(chunks, low, end);
      if overlaps {
        ghost var was, stored, free := chunks, bytes, budget.limit - budget.used;
        error, gaps := PlaceGaps(offset, data, low, fin, charge, precharged);
        ExtraIgnored(was, stored, maxBytes, maxChunks, free, gaps, low, end, |data| - charge.bytes);
      } else {
        NoClash(chunks, content, offset, data, low);
        WholeGap(chunks, low, end);
        gaps := [Range(low, end)];
        error := PlaceWhole(offset, data, low, fin, charge, precharged);
      }
    }

    /** src/recovery.rs, `insert_record_with_reservation`. */
    method Insert(offset: nat, data: Bytes, fin: bool, charge: Charge, precharged: bool)
      returns (error: Option<RecoveryError>, ghost gaps: seq<Range>)
      requires Valid() && budget.Holds(charge) && charge.token !in Tokens(chunks)
      modifies this, budget
      ensures Valid() && Rest() == old(Rest()) - {charge.token}
      ensures nextOffset == old(nextOffset) && ackOffset == old(ackOffset)
      ensures error.Some? ==> chunks == old(chunks) && bytes == old(bytes)
      ensures error.Some? ==> content == old(content) && finalOffset == old(finalOffset)
      ensures error.None? ==> content == Accept(old(content), offset, data)
      ensures error.None? ==> finalOffset == if fin then Some(offset + |data|) else old(finalOffset)
      ensures
        var fault := Fault(old(chunks), old(content), old(nextOffset), old(finalOffset), offset, data, fin);
        var low, end := Larger(offset, old(nextOffset)), offset + |data|;
        if precharged && charge.bytes < |data| then error == Some(Capacity)
        else if fault.Some? then error == fault
        else
          && (if low < end then Missing(old(chunks), low, end, gaps) else gaps == [])
          && var extra := if precharged then 0 else |data| - charge.bytes;
             var free := budget.limit - old(budget.used);
             error ==
             if gaps != [] && Short(old(bytes), |old(chunks)|, maxBytes, maxChunks, free, gaps, low, end, extra)
             then Some(Capacity) else None
      ensures error.Some? ==> budget.used == old(budget.used) - charge.bytes
      ensures error.None? ==>
        Stored(|old(chunks)|, old(bytes), old(budget.used) - charge.bytes, |chunks|, bytes, budget.used, gaps,
               Larger(offset, old(nextOffset)), offset + |data|, Kept(charge, |data|, precharged))
    {
      hide Owned, Coherent, UnreadSize, Tokens, Accept, Final, Prompt, Others, Ordered, Within, Clashes, Passed;
      hide Missing, Stored, Kept, Short, FewestChunks;
      gaps := [];
      var end := offset + |data|;
      if precharged && charge.bytes < |data| {
        DropIncoming(charge);
        return Some(Capacity), gaps;
      }
      if end > MAX_WIRE_OFFSET || data == [] {
        DropIncoming(charge);
        return Some(if end > MAX_WIRE_OFFSET then OffsetOverflow else InvalidRange), gaps;
      }
      if finalOffset.Some? && end > finalOffset.value {
        DropIncoming(charge);
        return Some(FinalOffset), gaps;
      }
      if fin && ((finalOffset.Some? && finalOffset.value != end) || Passed(chunks, nextOffset, end)) {
        DropIncoming(charge);
        return Some(FinalOffset), gaps;
      }
      CoherentIs(chunks, content, nextOffset);
      if offset < nextOffset {
        var read := Smaller(end, nextOffset);
        ClashesSplit(chunks, content, offset, data, offset, read, end);
        var clash := CompareOverlaps(chunks, content, offset, data, offset, read);
        if clash {
          DropIncoming(charge);
          return Some(ContradictoryOverlap), gaps;
        }
        if end <= nextOffset {
          AllRead(chunks, content, nextOffset, offset, data, finalOffset, fin);
          StoredNothing(|chunks|, bytes, budget.used - charge.bytes, nextOffset, end, Kept(charge, |data|, precharged));
          if fin {
            finalOffset := Some(end);
          }
          DropIncoming(charge);
          return None, gaps;
        }
      }
      error, gaps := Place(offset, data, Larger(offset, nextOffset), fin, charge, precharged);
    }

    /** src/recovery.rs, `insert_record`: memory is reserved as it is needed. */
    method InsertRecord(offset: nat, data: Bytes, fin: bool)
      returns (error: Option<RecoveryError>, ghost gaps: seq<Range>)
      requires Valid()
      modifies this, budget
      ensures Valid() && Rest() == old(Rest())
      ensures nextOffset == old(nextOffset) && ackOffset == old(ackOffset)
      ensures error.Some? ==> chunks == old(chunks) && bytes == old(bytes)
      ensures error.Some? ==> content == old(content) && finalOffset == old(finalOffset)
      ensures error.None? ==> content == Accept(old(content), offset, data)
      ensures error.None? ==> finalOffset == if fin then Some(offset + |data|) else old(finalOffset)
      ensures
        var fault := Fault(old(chunks), old(content), old(nextOffset), old(finalOffset), offset, data, fin);
        var low, end := Larger(offset, old(nextOffset)), offset + |data|;
        if fault.Some? then error == fault
        else
          && (if low < end then Missing(old(chunks), low, end, gaps) else gaps == [])
          && var free := budget.limit - old(budget.used);
             error ==
             if gaps != [] && Short(old(bytes), |old(chunks)|, maxBytes, maxChunks, free, gaps, low, end, |data|)
             then Some(Capacity) else None
      ensures error.Some? ==> budget.used == old(budget.used)
      ensures error.None? ==>
        Stored(|old(chunks)|, old(bytes), old(budget.used), |chunks|, bytes, budget.used, gaps,
               Larger(offset, old(nextOffset)), offset + |data|, |data|)
    {
      hide Owned, Coherent, UnreadSize, Tokens, Accept, Final, Prompt, Missing, Fault, Short, Stored;
      ghost var ledger := budget.ledger;
      var charge := budget.Reserve(0);
      assert charge.value.token !in ledger;
      OwnedFresh(ledger, chunks, charge.value);
      ghost var token: object := charge.value.token;
      assert ledger[token := 0] - Tokens(chunks) - {token} == ledger - Tokens(chunks);
      error, gaps := Insert(offset, data, fin, charge.value, false);
    }

    /** src/recovery.rs, `set_final_offset`. */
    method SetFinalOffset(offset: nat) returns (error: Option<RecoveryError>)
      requires Valid()
      modifies this`finalOffset
      ensures Valid()
      ensures error.Some? ==> error == Some(FinalOffset) && finalOffset == old(finalOffset)
      ensures error.None? ==> finalOffset == Some(offset)
      ensures error.None? <==>
        && nextOffset <= offset <= MAX_WIRE_OFFSET && (old(finalOffset).Some? ==> old(finalOffset) == Some(offset))
        && forall o: nat :: offset <= o ==> o !in content
    {
      PassedIs(chunks, content, nextOffset, offset);
      hide Coherent, UnreadSize, Prompt, Passed;
      if || offset > MAX_WIRE_OFFSET || (finalOffset.Some? && finalOffset.value != offset)
         || Passed(chunks, nextOffset, offset)
      {
        return Some(FinalOffset);
      }
      finalOffset := Some(offset);
      return None;
    }

    /** One step of `read`: `count` bytes of the chunk at `i` have been handed out. */
    method Advance(i: nat, count: nat)
      requires Valid() && i < |chunks| && chunks[i].offset <= nextOffset < nextOffset + count <= chunks[i].End()
      modifies this, budget
      ensures Valid() && Rest() == old(Rest()) && ackOffset == old(ackOffset) && finalOffset == old(finalOffset)
      ensures content == old(content) && nextOffset == old(nextOffset) + count && bytes == old(bytes) - count
    {
      hide Coherent, Final, Prompt, Owned, Others, UnreadSize, Has, Within, Tokens, RemoveAt, Ordered;
      ReadOn(chunks, content, nextOffset, ackOffset, finalOffset, i, count);
      var c := chunks[i];
      nextOffset, bytes := nextOffset + count, bytes - count;
      if c.End() <= nextOffset && c.End() <= ackOffset {
        ghost var was, ledger := chunks, budget.ledger;
        GiveUp(was, content, nextOffset, ackOffset, finalOffset, i);
        RemoveOwned(ledger, was, i);
        RemoveSizes(was, i, nextOffset);
        OwnedHolds(ledger, was, i);
        budget.Drop(c.tag);
        chunks := RemoveAt(chunks, i);
      }
    }

    /** src/recovery.rs, `read`: the next accepted bytes in order, as many as there are and as fit. */
    method Read(output: array<byte>) returns (written: nat)
      requires Valid()
      modifies this, budget, output
      ensures Valid() && Rest() == old(Rest()) && ackOffset == old(ackOffset) && finalOffset == old(finalOffset)
      ensures content == old(content) && nextOffset == old(nextOffset) + written && bytes == old(bytes) - written
      ensures written <= output.Length && (written < output.Length ==> nextOffset !in content)
      ensures Spells(content, old(nextOffset), output[..written]) && output[written..] == old(output[..])[written..]
    {
      hide Owned, Others, Coherent, UnreadSize, Final, Prompt, Ordered, Within, Tokens, Spells;
      written := 0;
      SpellsNone(content, nextOffset);
      assert output[..0] == [];
      ghost var first := nextOffset;
      while written < output.Length
        invariant Valid() && Rest() == old(Rest()) && ackOffset == old(ackOffset) && finalOffset == old(finalOffset)
        invariant content == old(content) && nextOffset == first + written && bytes == old(bytes) - written
        invariant written <= output.Length
        invariant Spells(content, first, output[..written]) && output[written..] == old(output[..])[written..]
      {
        CoherentIs(chunks, content, nextOffset);
        var n := CountBelow(chunks, nextOffset + 1);
        if n == 0 || chunks[n - 1].End() <= nextOffset {
          NothingNext(chunks, content, nextOffset, n);
          return;
        }
        var c := chunks[n - 1];
        var start := nextOffset - c.offset;
        var count := Smaller(|c.bytes| - start, output.Length - written);
        var part := c.bytes[start..][..count];
        Reads(chunks, content, nextOffset, n - 1, count);
        SpellsMore(content, first, output[..written], part);
        CopyOut(output, written, part);
        Advance(n - 1, count);
        written := written + count;
      }
    }

    /** src/recovery.rs, `acknowledge_consumed`. */
    method AcknowledgeConsumed(contiguous: nat)
      requires Valid()
      modifies this, budget
      ensures Valid() && Rest() == old(Rest()) && ackOffset == Larger(old(ackOffset), contiguous)
      ensures content == old(content) && nextOffset == old(nextOffset) && bytes == old(bytes)
      ensures finalOffset == old(finalOffset)
    {
      hide Owned, Others, UnreadSize, Within, Has;
      ackOffset := Larger(ackOffset, contiguous);
      var before := Smaller(ackOffset, nextOffset);
      ghost var was := chunks;
      CoherentIs(chunks, content, nextOffset);
      chunks := Release(budget, chunks, before, nextOffset);
      Released(was, chunks, content, nextOffset, ackOffset, finalOffset, before);
    }

    /** src/recovery.rs, `is_finished`. */
    method IsFinished() returns (finished: bool)
      requires Valid()
      ensures finished ==> finalOffset.Some? && forall o: nat :: o in content <==> o < finalOffset.value
      ensures finished <==> finalOffset == Some(nextOffset)
    {
      finished := finalOffset == Some(nextOffset);
      if finished {
        PassedIs(chunks, content, nextOffset, nextOffset);
      }
    }

    /** Dropping the buffer returns every byte it held. */
    method Drop()
      requires Valid()
      modifies this, budget
      ensures budget.Valid() && budget.ledger == old(Rest())
    {
      CoherentIs(chunks, content, nextOffset);
      chunks := Release(budget, chunks, MAX_WIRE_OFFSET, MAX_WIRE_OFFSET);
      assert chunks == [];
    }
  }
}
