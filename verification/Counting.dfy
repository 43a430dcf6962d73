/**
 * The byte counters count offsets: what the reassembler stores never outgrows its window (src/recovery.rs,
 * src/flow.rs).
 */
module Counting {
  import opened Sets
  import opened Results
  import opened Galois
  import opened Varint
  import opened AckRanges
  import opened Chunks
  import opened Gaps
  import opened Charges
  import opened Reassembler

  lemma {:induction false} OffsetsCount(low: nat, high: nat)
    requires low <= high
    ensures |Offsets(low, high)| == high - low
    decreases high
  {
    if low == high {
      assert Offsets(low, high) == {};
    } else {
      OffsetsCount(low, high - 1);
      assert Offsets(low, high) == Offsets(low, high - 1) + {high - 1};
    }
  }

  /** The accepted offsets that were not read yet. */
  ghost function Waiting(content: map<nat, byte>, next: nat): set<nat> {
    set o | o in content && next <= o
  }

  ghost function Held(chunks: seq<BufferedChunk>, next: nat, high: nat): set<nat> {
    set o | o in Offsets(next, high) && Has(chunks, o)
  }

  lemma HasLast(chunks: seq<BufferedChunk>, o: nat)
    requires Ordered(chunks) && chunks != []
    ensures Has(chunks, o) <==> Has(chunks[..|chunks| - 1], o) || Holds(chunks[|chunks| - 1], o)
    ensures Has(chunks[..|chunks| - 1], o) ==> o < chunks[|chunks| - 1].offset
  {
    var n := |chunks| - 1;
    assert chunks == chunks[..n] + [chunks[n]];
    HasConcat(chunks[..n], [chunks[n]], o);
    assert Has([chunks[n]], o) <==> Holds(chunks[n], o) by { assert [chunks[n]][0] == chunks[n]; }
  }

  lemma {:induction false} UnreadCounts(chunks: seq<BufferedChunk>, next: nat, high: nat)
    requires Ordered(chunks) && forall i :: 0 <= i < |chunks| ==> chunks[i].End() <= high
    ensures UnreadSize(chunks, next) == |Held(chunks, next, high)|
  {
    if chunks == [] {
      assert Held(chunks, next, high) == {};
    } else {
      var init, last := chunks[..|chunks| - 1], chunks[|chunks| - 1];
      UnreadCounts(init, next, high);
      var low := Larger(next, last.offset);
      var added := Offsets(low, Larger(low, last.End()));
      OffsetsCount(low, Larger(low, last.End()));
      assert last.End() <= high;
      forall o: nat
        ensures Has(chunks, o) <==> Has(init, o) || Holds(last, o)
        ensures Has(init, o) ==> o < last.offset
      {
        HasLast(chunks, o);
      }
      HeldGrows(chunks, init, last, next, high, added);
    }
  }

  lemma HeldGrows(chunks: seq<BufferedChunk>, init: seq<BufferedChunk>, last: BufferedChunk, next: nat, high: nat,
                  added: set<nat>)
    requires last.End() <= high
    requires forall o: nat :: Has(chunks, o) <==> Has(init, o) || Holds(last, o)
    requires forall o: nat :: Has(init, o) ==> o < last.offset
    requires forall o: nat :: o in added <==> next <= o && last.offset <= o < last.End()
    ensures |Held(chunks, next, high)| == |Held(init, next, high)| + |added|
  {
    hide Has;
    assert Held(chunks, next, high) == Held(init, next, high) + added;
    assert Held(init, next, high) !! added;
  }

  lemma InLast(gaps: seq<Range>, low: nat, high: nat, o: nat)
    requires InOrder(gaps, low, high) && gaps != []
    ensures InRanges(gaps, o) <==> InRanges(gaps[..|gaps| - 1], o) || Inside(gaps[|gaps| - 1], o)
    ensures InRanges(gaps[..|gaps| - 1], o) ==> o < gaps[|gaps| - 1].start
  {
    var n := |gaps| - 1;
    assert gaps == gaps[..n] + [gaps[n]];
    InConcat(gaps[..n], [gaps[n]], o);
    InSingle(gaps[n], o);
  }

  lemma {:induction false} LengthCounts(gaps: seq<Range>, low: nat, high: nat) returns (s: set<nat>)
    requires InOrder(gaps, low, high)
    ensures |s| == Length(gaps) && forall o :: o in s <==> InRanges(gaps, o)
  {
    s := {};
    if gaps != [] {
      var init, last := gaps[..|gaps| - 1], gaps[|gaps| - 1];
      var t := LengthCounts(init, low, high);
      OffsetsCount(last.start, last.end);
      forall o: nat
        ensures InRanges(gaps, o) <==> InRanges(init, o) || Inside(last, o)
        ensures InRanges(init, o) ==> o < last.start
      {
        InLast(gaps, low, high, o);
      }
      hide InRanges;
      var added := Offsets(last.start, last.end);
      assert t !! added;
      s := t + added;
    }
  }

  /** The unread counter is exact. */
  lemma UnreadIsWaiting(chunks: seq<BufferedChunk>, content: map<nat, byte>, next: nat)
    requires Coherent(chunks, content, next)
    ensures UnreadSize(chunks, next) == |Waiting(content, next)|
  {
    UnreadCounts(chunks, next, MAX_WIRE_OFFSET);
    forall o: nat | Has(chunks, o) ensures o < MAX_WIRE_OFFSET {
    }
    hide Has;
    assert Waiting(content, next) == Held(chunks, next, MAX_WIRE_OFFSET);
  }

  /** Inside a window of `limit - next` offsets, the bytes on hand and any missing ones never exceed the window. */
  lemma WindowHolds(chunks: seq<BufferedChunk>, next: nat, low: nat, end: nat, limit: nat, gaps: seq<Range>)
    requires Ordered(chunks) && next <= low <= end <= limit && Missing(chunks, low, end, gaps)
    requires forall i :: 0 <= i < |chunks| ==> chunks[i].End() <= limit
    ensures next + UnreadSize(chunks, next) + Length(gaps) <= limit
  {
    UnreadCounts(chunks, next, limit);
    var s := LengthCounts(gaps, low, end);
    OffsetsCount(next, limit);
    var held := Held(chunks, next, limit);
    assert held !! s;
    SubsetSize(held + s, Offsets(next, limit));
  }
}
