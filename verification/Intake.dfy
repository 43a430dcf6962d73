/** A receive buffer never refuses its first eight records for want of room (src/recovery.rs). */
module Intake {
  import opened Results
  import opened Galois
  import opened Varint
  import opened AckRanges
  import opened Chunks
  import opened Gaps
  import opened Budget
  import opened Charges
  import opened Replay
  import opened Reassembler

  /** None of the offsets [offset, end) has been accepted. */
  ghost predicate Unseen(content: map<nat, byte>, offset: nat, end: nat) {
    forall o: nat :: offset <= o < end ==> o !in content
  }

  // A stretch that was never accepted is one gap.
  lemma UnseenIsWhole(chunks: seq<BufferedChunk>, content: map<nat, byte>, next: nat, offset: nat, end: nat,
                      gaps: seq<Range>)
    requires Coherent(chunks, content, next) && Unseen(content, offset, end) && offset < end <= MAX_WIRE_OFFSET
    requires Missing(chunks, Larger(offset, next), end, gaps)
    ensures next <= offset && gaps == [Range(offset, end)] && Length(gaps) == end - offset
  {
    assert offset !in content;
    WholeGap(chunks, offset, end);
    hide Coherent, Missing, Has;
    MissingUnique(chunks, offset, end, gaps, [Range(offset, end)]);
  }

  /** An empty buffer has room for every record of up to `maxBytes` bytes that memory can pay for. */
  lemma EmptyHasRoom(next: nat, maxBytes: nat, maxChunks: nat, free: int, offset: nat, end: nat, gaps: seq<Range>,
                     extra: int)
    requires FewestChunks(maxBytes, maxChunks) && Larger(offset, next) < end <= MAX_WIRE_OFFSET
    requires end - offset <= maxBytes && extra <= free
    requires var none: seq<BufferedChunk> := []; Missing(none, Larger(offset, next), end, gaps)
    ensures !Short(0, 0, maxBytes, maxChunks, free, gaps, Larger(offset, next), end, extra)
  {
    var none: seq<BufferedChunk>, low := [], Larger(offset, next);
    WholeGap(none, low, end);
    hide Missing, Has, Length;
    MissingUnique(none, low, end, gaps, [Range(low, end)]);
  }

  /** With fewer than eight chunks, a record of new bytes that fits by bytes and memory is never short of room. */
  lemma RoomForNew(chunks: seq<BufferedChunk>, content: map<nat, byte>, next: nat, bytes: nat, maxBytes: nat,
                   maxChunks: nat, free: int, offset: nat, end: nat, gaps: seq<Range>, extra: int)
    requires Coherent(chunks, content, next) && FewestChunks(maxBytes, maxChunks) && |chunks| < 8
    requires Unseen(content, offset, end) && offset < end <= MAX_WIRE_OFFSET
    requires bytes + (end - offset) <= maxBytes && extra <= free
    requires Missing(chunks, Larger(offset, next), end, gaps)
    ensures gaps == [Range(offset, end)] && Larger(offset, next) == offset
    ensures !Short(bytes, |chunks|, maxBytes, maxChunks, free, gaps, offset, end, extra)
  {
    hide Coherent, Missing, Unseen, Length;
    UnseenIsWhole(chunks, content, next, offset, end, gaps);
  }

  lemma UnseenIsFaultless(chunks: seq<BufferedChunk>, content: map<nat, byte>, next: nat, offset: nat, data: Bytes)
    requires Coherent(chunks, content, next) && Unseen(content, offset, offset + |data|)
    requires data != [] && offset + |data| <= MAX_WIRE_OFFSET
    ensures Fault(chunks, content, next, None, offset, data, false) == None
  {
  }

  // ----- up to eight records

  datatype Piece = Piece(offset: nat, data: Bytes) {
    ghost predicate Covers(o: nat) {
      offset <= o < offset + |data|
    }
  }

  ghost predicate Disjoint(pieces: seq<Piece>) {
    forall i, k, o: nat :: 0 <= i < k < |pieces| && pieces[i].Covers(o) ==> !pieces[k].Covers(o)
  }

  function Sizes(pieces: seq<Piece>): nat {
    if pieces == [] then 0 else Sizes(pieces[..|pieces| - 1]) + |pieces[|pieces| - 1].data|
  }

  lemma {:induction false} SizesPrefix(pieces: seq<Piece>, n: nat)
    requires n < |pieces|
    ensures Sizes(pieces[..n + 1]) == Sizes(pieces[..n]) + |pieces[n].data| <= Sizes(pieces)
    decreases |pieces|
  {
    assert pieces[..n + 1][..n] == pieces[..n];
    if n + 1 < |pieces| {
      SizesPrefix(pieces[..|pieces| - 1], n);
      assert pieces[..|pieces| - 1][..n + 1] == pieces[..n + 1];
      assert pieces[..|pieces| - 1][..n] == pieces[..n];
    } else {
      assert pieces[..n + 1] == pieces;
    }
  }

  ghost predicate Brings(p: Piece, content: map<nat, byte>) {
    forall o: nat :: p.Covers(o) ==> o in content && content[o] == p.data[o - p.offset]
  }

  ghost predicate Covered(pieces: seq<Piece>, o: nat) {
    exists i :: 0 <= i < |pieces| && pieces[i].Covers(o)
  }

  /** The content is exactly what the pieces bring. */
  ghost predicate Holds(content: map<nat, byte>, pieces: seq<Piece>) {
    && (forall i :: 0 <= i < |pieces| ==> Brings(pieces[i], content))
    && forall o: nat :: o in content ==> Covered(pieces, o)
  }

  lemma UnseenNext(content: map<nat, byte>, pieces: seq<Piece>, n: nat)
    requires n < |pieces| && Disjoint(pieces) && Holds(content, pieces[..n])
    ensures Unseen(content, pieces[n].offset, pieces[n].offset + |pieces[n].data|)
  {
    forall o: nat | pieces[n].Covers(o) ensures o !in content {
    }
  }

  lemma AcceptNew(content: map<nat, byte>, p: Piece)
    requires Unseen(content, p.offset, p.offset + |p.data|)
    ensures var r := Accept(content, p.offset, p.data);
      && Brings(p, r)
      && (forall o: nat :: o in content ==> o in r && r[o] == content[o])
      && forall o: nat :: o in r ==> o in content || p.Covers(o)
  {
  }

  lemma BringsStill(p: Piece, content: map<nat, byte>, next: map<nat, byte>)
    requires Brings(p, content) && forall o: nat :: o in content ==> o in next && next[o] == content[o]
    ensures Brings(p, next)
  {
  }

  lemma CoveredNext(pieces: seq<Piece>, n: nat, o: nat)
    requires n < |pieces| && (Covered(pieces[..n], o) || pieces[n].Covers(o))
    ensures Covered(pieces[..n + 1], o)
  {
    if pieces[n].Covers(o) {
      assert pieces[..n + 1][n].Covers(o);
    } else {
      var i :| 0 <= i < n && pieces[..n][i].Covers(o);
      assert pieces[..n + 1][i].Covers(o);
    }
  }

  lemma HoldsNext(content: map<nat, byte>, pieces: seq<Piece>, n: nat)
    requires n < |pieces| && Holds(content, pieces[..n])
    requires Unseen(content, pieces[n].offset, pieces[n].offset + |pieces[n].data|)
    ensures Holds(Accept(content, pieces[n].offset, pieces[n].data), pieces[..n + 1])
  {
    hide Accept, Unseen, Covered, Brings;
    var next, init := Accept(content, pieces[n].offset, pieces[n].data), pieces[..n + 1];
    AcceptNew(content, pieces[n]);
    forall i | 0 <= i < |init| ensures Brings(init[i], next) {
      if i < n {
        assert pieces[..n][i] == init[i];
        BringsStill(init[i], content, next);
      }
    }
    forall o: nat | o in next ensures Covered(init, o) {
      CoveredNext(pieces, n, o);
    }
  }

  /**
   * A new buffer accepts any eight disjoint records, in any order, that fit it and the budget by bytes; it then holds
   * exactly their bytes, at their size in memory.
   */
  method TakeEight(maxBytes: nat, budget: MemoryBudget, pieces: seq<Piece>) returns (r: Reassembler)
    requires budget.Valid() && |pieces| <= 8 && Disjoint(pieces)
    requires forall i :: 0 <= i < |pieces| ==>
      pieces[i].data != [] && pieces[i].offset + |pieces[i].data| <= MAX_WIRE_OFFSET
    requires Sizes(pieces) <= maxBytes && budget.used + Sizes(pieces) <= budget.limit
    modifies budget
    ensures r.Valid() && fresh(r) && r.budget == budget && Holds(r.content, pieces)
    ensures |r.chunks| == |pieces| && budget.used == old(budget.used) + Sizes(pieces)
  {
    hide Coherent, Final, Prompt, UnreadSize, Owned, Disjoint, Accept, Unseen, Fault, Missing, Others;
    r := new Reassembler(maxBytes, budget);
    var n := 0;
    assert pieces[..0] == [];
    while n < |pieces|
      invariant 0 <= n <= |pieces| && r.Valid() && fresh(r) && r.budget == budget && r.maxBytes == maxBytes
      invariant |r.chunks| == n && r.bytes == Sizes(pieces[..n]) && r.finalOffset == None && r.nextOffset == 0
      invariant budget.used == old(budget.used) + Sizes(pieces[..n])
      invariant Holds(r.content, pieces[..n])
    {
      TakeNext(r, pieces, n);
      n := n + 1;
    }
    assert pieces[..|pieces|] == pieces;
  }

  method TakeNext(r: Reassembler, pieces: seq<Piece>, n: nat)
    requires r.Valid() && n < |pieces| <= 8 && Disjoint(pieces) && |r.chunks| == n && Holds(r.content, pieces[..n])
    requires pieces[n].data != [] && pieces[n].offset + |pieces[n].data| <= MAX_WIRE_OFFSET
    requires r.bytes == Sizes(pieces[..n]) && Sizes(pieces) <= r.maxBytes && r.finalOffset == None
    requires r.budget.used - Sizes(pieces[..n]) + Sizes(pieces) <= r.budget.limit
    modifies r, r.budget
    ensures r.Valid() && r.finalOffset == None && r.nextOffset == old(r.nextOffset)
    ensures |r.chunks| == n + 1 && r.bytes == Sizes(pieces[..n + 1]) && Holds(r.content, pieces[..n + 1])
    ensures r.budget.used == old(r.budget.used) + |pieces[n].data|
    ensures Sizes(pieces[..n + 1]) == Sizes(pieces[..n]) + |pieces[n].data|
  {
    hide Coherent, Final, Prompt, UnreadSize, Owned, Disjoint, Accept, Unseen, Fault, Missing, Others, Holds, Short;
    hide MemoryBudget.Valid;
    var p := pieces[n];
    SizesPrefix(pieces, n);
    UnseenNext(r.content, pieces, n);
    HoldsNext(r.content, pieces, n);
    ghost var end := p.offset + |p.data|;
    UnseenIsFaultless(r.chunks, r.content, r.nextOffset, p.offset, p.data);
    ghost var chunks, content, next, bytes, free := r.chunks, r.content, r.nextOffset, r.bytes,
      r.budget.limit - r.budget.used;
    var error, gaps := r.InsertRecord(p.offset, p.data, false);
    UnseenReaches(chunks, content, next, p.offset, end);
    RoomForNew(chunks, content, next, bytes, r.maxBytes, r.maxChunks, free, p.offset, end, gaps, |p.data|);
    assert Length([Range(p.offset, end)]) == |p.data| by { assert [Range(p.offset, end)][..0] == []; }
  }

  lemma UnseenReaches(chunks: seq<BufferedChunk>, content: map<nat, byte>, next: nat, offset: nat, end: nat)
    requires Coherent(chunks, content, next) && Unseen(content, offset, end) && offset < end
    ensures next <= offset
  {
    assert offset !in content;
  }
}
