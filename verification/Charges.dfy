/** Chunks that own memory charges, and filling gaps between them (src/recovery.rs). */
module Charges {
  import opened Results
  import opened Galois
  import opened Varint
  import opened AckRanges
  import opened Chunks
  import opened Gaps
  import opened Budget

  type BufferedChunk = Chunk<Charge>

  ghost function Tokens(chunks: seq<BufferedChunk>): set<object> {
    set i | 0 <= i < |chunks| :: chunks[i].tag.token
  }

  /** Every chunk owns one charge of its own, large enough for its bytes. */
  ghost predicate Owned(ledger: map<object, nat>, chunks: seq<BufferedChunk>) {
    && (forall i :: 0 <= i < |chunks| ==>
      && chunks[i].tag.token in ledger
      && ledger[chunks[i].tag.token] == chunks[i].tag.bytes
      && |chunks[i].bytes| <= chunks[i].tag.bytes)
    && forall i, j :: 0 <= i < j < |chunks| ==> chunks[i].tag.token != chunks[j].tag.token
  }

  /** What everybody else holds. */
  ghost function Others(ledger: map<object, nat>, chunks: seq<BufferedChunk>): map<object, nat> {
    ledger - Tokens(chunks)
  }

  lemma OwnedInsert(ledger: map<object, nat>, chunks: seq<BufferedChunk>, n: nat, c: BufferedChunk)
    requires Owned(ledger, chunks) && n <= |chunks|
    requires c.tag.token in ledger && ledger[c.tag.token] == c.tag.bytes && |c.bytes| <= c.tag.bytes
    requires c.tag.token !in Tokens(chunks)
    ensures Owned(ledger, InsertAt(chunks, n, c))
    ensures Tokens(InsertAt(chunks, n, c)) == Tokens(chunks) + {c.tag.token}
  {
    InsertIndex(chunks, n, c);
    var r := InsertAt(chunks, n, c);
    assert |r| == |chunks| + 1;
    hide InsertAt;
    forall k | k in Tokens(chunks) + {c.tag.token} ensures k in Tokens(r) {
      if k in Tokens(chunks) {
        var i :| 0 <= i < |chunks| && chunks[i].tag.token == k;
        assert r[if i < n then i else i + 1].tag.token == k;
      } else {
        assert r[n].tag.token == k;
      }
    }
  }

  lemma OwnedKeeps(ledger: map<object, nat>, ledger': map<object, nat>, chunks: seq<BufferedChunk>)
    requires Owned(ledger, chunks)
    requires forall k :: k in ledger && k in Tokens(chunks) ==> k in ledger' && ledger'[k] == ledger[k]
    ensures Owned(ledger', chunks)
  {
    forall i | 0 <= i < |chunks| ensures chunks[i].tag.token in Tokens(chunks) {
    }
  }

  lemma OwnedFresh(ledger: map<object, nat>, chunks: seq<BufferedChunk>, charge: Charge)
    requires Owned(ledger, chunks) && charge.token !in ledger
    ensures Owned(ledger[charge.token := charge.bytes], chunks) && charge.token !in Tokens(chunks)
  {
  }

  // ----- filling gaps

  /** What stays true while a list of chunks grows into the gaps of another. */
  ghost predicate Grown(before: seq<BufferedChunk>, after: seq<BufferedChunk>, gaps: seq<Range>, low: nat, high: nat) {
    && Ordered(after)
    && (forall o: nat :: Has(after, o) <==> Has(before, o) || InRanges(gaps, o))
    && (forall i :: 0 <= i < |after| ==> after[i] in before || low < after[i].End() <= high)
  }

  lemma GrownOnce(before: seq<BufferedChunk>, after: seq<BufferedChunk>, gaps: seq<Range>, low: nat, high: nat, n: nat,
                  c: BufferedChunk, gap: Range)
    requires Grown(before, after, gaps, low, high) && Fits(after, n, c)
    requires low <= gap.start && gap.end <= high && c.offset == gap.start && c.End() == gap.end
    ensures Grown(before, InsertAt(after, n, c), gaps + [gap], low, high)
  {
    InsertIs(after, n, c);
    var r := InsertAt(after, n, c);
    forall o: nat ensures Has(r, o) <==> Has(before, o) || InRanges(gaps + [gap], o) {
      InsertHas(after, n, c, o);
      InConcat(gaps, [gap], o);
      InSingle(gap, o);
    }
    hide InsertAt, Has, InRanges;
    forall i | 0 <= i < |r| ensures r[i] in before || low < r[i].End() <= high {
    }
  }

  lemma WithinInsert(chunks: seq<BufferedChunk>, n: nat, c: BufferedChunk, content: map<nat, byte>)
    requires n <= |chunks| && Within(chunks, content)
    requires forall o: nat :: Holds(c, o) ==> o in content && content[o] == c.bytes[o - c.offset]
    ensures Within(InsertAt(chunks, n, c), content)
  {
    InsertIndex(chunks, n, c);
    hide InsertAt, Holds;
  }

  /** One gap of `data` becomes one chunk, paid for by a part of the scratch charge. */
  method FillGap(budget: MemoryBudget, chunks: seq<BufferedChunk>, gap: Range, offset: nat, data: Bytes,
                 scratch: Charge, ghost content: map<nat, byte>)
    returns (r: seq<BufferedChunk>, rest: Charge, ghost n: nat, ghost c: BufferedChunk)
    requires budget.Valid() && Owned(budget.ledger, chunks)
    requires budget.Holds(scratch) && scratch.token !in Tokens(chunks) && gap.end - gap.start <= scratch.bytes
    requires Ordered(chunks) && Within(chunks, content)
    requires offset <= gap.start < gap.end <= offset + |data| <= MAX_WIRE_OFFSET
    requires forall o: nat :: gap.start <= o < gap.end ==>
      !Has(chunks, o) && o in content && content[o] == data[o - offset]
    modifies budget`ledger
    ensures budget.Valid() && budget.Holds(rest) && rest.token == scratch.token
    ensures rest.bytes == scratch.bytes - (gap.end - gap.start)
    ensures Fits(chunks, n, c) && r == InsertAt(chunks, n, c) && c.offset == gap.start && c.End() == gap.end
    ensures Owned(budget.ledger, r) && Within(r, content) && scratch.token !in Tokens(r)
    ensures Others(budget.ledger, r) - {scratch.token} == old(Others(budget.ledger, chunks)) - {scratch.token}
  {
    var m, overlaps := FindSlot(chunks, gap.start, gap.end);
    assert !overlaps;
    var bytes := data[gap.start - offset..gap.end - offset];
    ghost var was := budget.ledger;
    var part, left := budget.Split(scratch, |bytes|);
    assert part.value.token !in was && part.value.token !in Tokens(chunks);
    OwnedKeeps(was, budget.ledger, chunks);
    c, n := Chunk(gap.start, bytes, part.value), m;
    OwnedInsert(budget.ledger, chunks, n, c);
    WithinInsert(chunks, n, c, content);
    r, rest := InsertAt(chunks, m, Chunk(gap.start, bytes, part.value)), left;
  }

  lemma LengthNext(gaps: seq<Range>, i: nat, low: nat, high: nat)
    requires InOrder(gaps, low, high) && i < |gaps|
    ensures Length(gaps[..i + 1]) == Length(gaps[..i]) + gaps[i].end - gaps[i].start
    ensures Length(gaps[..i]) + gaps[i].end - gaps[i].start <= Length(gaps)
    decreases |gaps|
  {
    assert gaps[..i + 1][..i] == gaps[..i];
    if i + 1 < |gaps| {
      var init := gaps[..|gaps| - 1];
      LengthNext(init, i, low, high);
      assert init[..i] == gaps[..i];
    } else {
      assert gaps[..i + 1] == gaps;
    }
  }

  /** src/recovery.rs, the insertion loop of `insert_overlapping_record`. */
  method FillGaps(budget: MemoryBudget, chunks: seq<BufferedChunk>, gaps: seq<Range>, low: nat, offset: nat,
                  data: Bytes, scratch: Charge, ghost content: map<nat, byte>, ghost next: nat)
    returns (r: seq<BufferedChunk>, rest: Charge)
    requires budget.Valid() && Owned(budget.ledger, chunks)
    requires budget.Holds(scratch) && scratch.token !in Tokens(chunks)
    requires Ordered(chunks) && Within(chunks, content)
    requires next <= low && offset <= low <= offset + |data| <= MAX_WIRE_OFFSET
    requires Missing(chunks, low, offset + |data|, gaps) && Length(gaps) <= scratch.bytes
    requires forall o: nat :: low <= o < offset + |data| && !Has(chunks, o) ==>
      o in content && content[o] == data[o - offset]
    modifies budget`ledger
    ensures budget.Valid() && budget.Holds(rest) && rest.token == scratch.token
    ensures rest.bytes == scratch.bytes - Length(gaps)
    ensures Owned(budget.ledger, r) && Within(r, content) && scratch.token !in Tokens(r)
    ensures Others(budget.ledger, r) - {scratch.token} == old(Others(budget.ledger, chunks)) - {scratch.token}
    ensures Grown(chunks, r, gaps, low, offset + |data|) && |r| == |chunks| + |gaps|
    ensures UnreadSize(r, next) == UnreadSize(chunks, next) + Length(gaps)
  {
    hide Tokens, Others, Owned, Ordered, Within, Has, UnreadSize, InRanges, Fits;
    r, rest := chunks, scratch;
    var i := 0;
    ghost var high := offset + |data|;
    assert gaps[..0] == [];
    GrownNone(chunks, low, high);
    while i < |gaps|
      invariant 0 <= i <= |gaps|
      invariant budget.Valid() && budget.Holds(rest) && rest.token == scratch.token
      invariant Owned(budget.ledger, r) && Within(r, content) && scratch.token !in Tokens(r)
      invariant Others(budget.ledger, r) - {scratch.token} == old(Others(budget.ledger, chunks)) - {scratch.token}
      invariant Grown(chunks, r, gaps[..i], low, high) && |r| == |chunks| + i
      invariant UnreadSize(r, next) == UnreadSize(chunks, next) + Length(gaps[..i])
      invariant rest.bytes == scratch.bytes - Length(gaps[..i])
    {
      LengthNext(gaps, i, low, high);
      ghost var was := r;
      StillMissing(chunks, r, gaps, low, high, i);
      ghost var n, c;
      r, rest, n, c := FillGap(budget, r, gaps[i], offset, data, rest, content);
      GrownOnce(chunks, was, gaps[..i], low, high, n, c, gaps[i]);
      InsertSizes(was, n, c, next);
      assert gaps[..i + 1] == gaps[..i] + [gaps[i]];
      i := i + 1;
    }
    assert gaps[..|gaps|] == gaps;
  }

  lemma GrownNone(chunks: seq<BufferedChunk>, low: nat, high: nat)
    requires Ordered(chunks)
    ensures Grown(chunks, chunks, [], low, high)
  {
  }

  lemma StillMissing(chunks: seq<BufferedChunk>, r: seq<BufferedChunk>, gaps: seq<Range>, low: nat, high: nat, i: nat)
    requires Missing(chunks, low, high, gaps) && i < |gaps| && Grown(chunks, r, gaps[..i], low, high)
    ensures forall o: nat :: gaps[i].start <= o < gaps[i].end ==> !Has(r, o) && !Has(chunks, o)
  {
    forall o: nat | gaps[i].start <= o < gaps[i].end ensures !Has(r, o) && !Has(chunks, o) {
      assert Inside(gaps[i], o);
      assert InRanges(gaps, o);
    }
  }

  // ----- releasing chunks

  function RemoveAt(chunks: seq<BufferedChunk>, n: nat): seq<BufferedChunk>
    requires n < |chunks|
  {
    chunks[..n] + chunks[n + 1..]
  }

  lemma RemoveInserts(chunks: seq<BufferedChunk>, n: nat)
    requires n < |chunks|
    ensures InsertAt(RemoveAt(chunks, n), n, chunks[n]) == chunks
    ensures forall i :: 0 <= i < |RemoveAt(chunks, n)| ==> RemoveAt(chunks, n)[i] == chunks[if i < n then i else i + 1]
  {
  }

  lemma RemoveTokens(ledger: map<object, nat>, chunks: seq<BufferedChunk>, n: nat)
    requires Owned(ledger, chunks) && n < |chunks|
    ensures Owned(ledger - {chunks[n].tag.token}, RemoveAt(chunks, n))
    ensures Tokens(chunks) == Tokens(RemoveAt(chunks, n)) + {chunks[n].tag.token}
  {
    RemoveInserts(chunks, n);
    var r := RemoveAt(chunks, n);
    assert |r| == |chunks| - 1;
    hide RemoveAt, InsertAt;
    forall k | k in Tokens(chunks) ensures k in Tokens(r) + {chunks[n].tag.token} {
      var i :| 0 <= i < |chunks| && chunks[i].tag.token == k;
      assert i != n ==> r[if i < n then i else i - 1].tag.token == k;
    }
  }

  lemma RemoveOwned(ledger: map<object, nat>, chunks: seq<BufferedChunk>, n: nat)
    requires Owned(ledger, chunks) && n < |chunks|
    ensures Owned(ledger - {chunks[n].tag.token}, RemoveAt(chunks, n))
    ensures Others(ledger - {chunks[n].tag.token}, RemoveAt(chunks, n)) == Others(ledger, chunks)
  {
    RemoveTokens(ledger, chunks, n);
    var r, token := RemoveAt(chunks, n), chunks[n].tag.token;
    hide RemoveAt, Tokens, Owned;
    assert ledger - {token} - Tokens(r) == ledger - (Tokens(r) + {token});
  }

  /** What stays true while chunks that end at or before `before` are given up. */
  ghost predicate Shrunk(from: seq<BufferedChunk>, to: seq<BufferedChunk>, before: nat) {
    && Ordered(to)
    && (forall i :: 0 <= i < |to| ==> to[i] in from)
    && (forall o: nat :: Has(to, o) ==> Has(from, o))
    && (forall o: nat :: before <= o && Has(from, o) ==> Has(to, o))
  }

  lemma RemoveHas(chunks: seq<BufferedChunk>, n: nat, o: nat)
    requires n < |chunks|
    ensures Has(chunks, o) <==> Has(RemoveAt(chunks, n), o) || Holds(chunks[n], o)
  {
    RemoveInserts(chunks, n);
    var r := RemoveAt(chunks, n);
    hide RemoveAt, Has, Holds;
    InsertHas(r, n, chunks[n], o);
  }

  lemma RemoveOrdered(chunks: seq<BufferedChunk>, n: nat)
    requires n < |chunks| && Ordered(chunks)
    ensures Ordered(RemoveAt(chunks, n))
    ensures forall i :: 0 <= i < |RemoveAt(chunks, n)| ==> RemoveAt(chunks, n)[i] in chunks
  {
    RemoveInserts(chunks, n);
    var r := RemoveAt(chunks, n);
    assert |r| == |chunks| - 1;
    hide RemoveAt, InsertAt;
  }

  lemma RemoveSizes(chunks: seq<BufferedChunk>, n: nat, next: nat)
    requires n < |chunks| && chunks[n].End() <= next
    ensures UnreadSize(RemoveAt(chunks, n), next) == UnreadSize(chunks, next)
  {
    RemoveInserts(chunks, n);
    var r := RemoveAt(chunks, n);
    hide RemoveAt, UnreadSize;
    InsertSizes(r, n, chunks[n], next);
  }

  lemma RemoveShrinks(from: seq<BufferedChunk>, chunks: seq<BufferedChunk>, n: nat, before: nat)
    requires Shrunk(from, chunks, before) && n < |chunks| && chunks[n].End() <= before
    ensures Shrunk(from, RemoveAt(chunks, n), before)
  {
    RemoveOrdered(chunks, n);
    var r := RemoveAt(chunks, n);
    forall o: nat ensures Has(chunks, o) <==> Has(r, o) || Holds(chunks[n], o) {
      RemoveHas(chunks, n, o);
    }
    hide RemoveAt, Has, Ordered;
  }

  /** src/recovery.rs, the retention loop of `acknowledge_consumed`; dropped chunks return their charges. */
  method Release(budget: MemoryBudget, chunks: seq<BufferedChunk>, before: nat, ghost next: nat)
    returns (r: seq<BufferedChunk>)
    requires budget.Valid() && Owned(budget.ledger, chunks) && Ordered(chunks) && before <= next
    modifies budget
    ensures budget.Valid() && Owned(budget.ledger, r) && Others(budget.ledger, r) == old(Others(budget.ledger, chunks))
    ensures Shrunk(chunks, r, before) && |r| <= |chunks| && UnreadSize(r, next) == UnreadSize(chunks, next)
    ensures forall i :: 0 <= i < |r| ==> r[i].End() > before
  {
    hide Owned, Ordered, Others, UnreadSize, Has;
    r := [];
    var i := 0;
    assert r + chunks[i..] == chunks;
    ShrunkNone(chunks, before);
    while i < |chunks|
      invariant 0 <= i <= |chunks| && |r| <= i
      invariant budget.Valid() && Owned(budget.ledger, r + chunks[i..])
      invariant Others(budget.ledger, r + chunks[i..]) == old(Others(budget.ledger, chunks))
      invariant Shrunk(chunks, r + chunks[i..], before)
      invariant UnreadSize(r + chunks[i..], next) == UnreadSize(chunks, next)
      invariant forall k :: 0 <= k < |r| ==> r[k].End() > before
    {
      var c := chunks[i];
      ghost var all := r + chunks[i..];
      assert all[|r|] == c;
      if c.End() <= before {
        RemoveOwned(budget.ledger, all, |r|);
        RemoveShrinks(chunks, all, |r|, before);
        RemoveSizes(all, |r|, next);
        OwnedHolds(budget.ledger, all, |r|);
        budget.Drop(c.tag);
        assert RemoveAt(all, |r|) == r + chunks[i + 1..];
      } else {
        assert all == r + [c] + chunks[i + 1..];
        r := r + [c];
      }
      i := i + 1;
    }
    assert r + chunks[|chunks|..] == r;
  }

  lemma OwnedHolds(ledger: map<object, nat>, chunks: seq<BufferedChunk>, n: nat)
    requires Owned(ledger, chunks) && n < |chunks|
    ensures chunks[n].tag.token in ledger && ledger[chunks[n].tag.token] == chunks[n].tag.bytes
  {
  }

  lemma ShrunkNone(chunks: seq<BufferedChunk>, before: nat)
    requires Ordered(chunks)
    ensures Shrunk(chunks, chunks, before)
  {
  }
}
