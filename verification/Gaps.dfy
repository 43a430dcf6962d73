/** Comparing an incoming stretch with buffered chunks, and finding what is missing (src/recovery.rs). */
module Gaps {
  import opened Galois
  import opened Varint
  import opened AckRanges
  import opened Chunks

  /** Some buffered byte in [low, high) differs from the one arriving at `offset`. */
  ghost predicate Conflict(content: map<nat, byte>, offset: nat, data: Bytes, o: nat) {
    o in content && offset <= o < offset + |data| && content[o] != data[o - offset]
  }

  ghost predicate Clashes<T>(chunks: seq<Chunk<T>>, content: map<nat, byte>, offset: nat, data: Bytes, low: nat,
                             high: nat)
  {
    exists o: nat :: low <= o < high && Has(chunks, o) && Conflict(content, offset, data, o)
  }

  /** The first `n` chunks agree with the arriving stretch. */
  ghost predicate Clean<T>(chunks: seq<Chunk<T>>, n: nat, content: map<nat, byte>, offset: nat, data: Bytes, low: nat,
                           high: nat)
    requires n <= |chunks|
  {
    forall k, o: nat :: 0 <= k < n && low <= o < high && Holds(chunks[k], o) ==> !Conflict(content, offset, data, o)
  }

  lemma CleanNext<T>(chunks: seq<Chunk<T>>, n: nat, content: map<nat, byte>, offset: nat, data: Bytes, low: nat,
                     high: nat)
    requires n < |chunks| && Clean(chunks, n, content, offset, data, low, high)
    requires forall o: nat :: low <= o < high && Holds(chunks[n], o) ==> !Conflict(content, offset, data, o)
    ensures Clean(chunks, n + 1, content, offset, data, low, high)
  {
    hide Holds, Conflict;
  }

  lemma CleanAll<T>(chunks: seq<Chunk<T>>, n: nat, content: map<nat, byte>, offset: nat, data: Bytes, low: nat,
                    high: nat)
    requires Ordered(chunks) && n <= |chunks| && Clean(chunks, n, content, offset, data, low, high)
    requires n < |chunks| ==> high <= chunks[n].offset
    ensures !Clashes(chunks, content, offset, data, low, high)
  {
    forall k, o: nat | n <= k < |chunks| && low <= o < high ensures !Holds(chunks[k], o) {
      assert k > n ==> chunks[n].End() <= chunks[k].offset;
    }
    hide Conflict;
  }

  /** src/recovery.rs, `validate_consumed_overlap` and the comparison in `insert_overlapping_record`. */
  method CompareOverlaps<T>(chunks: seq<Chunk<T>>, ghost content: map<nat, byte>, offset: nat, data: Bytes, low: nat,
                            high: nat)
    returns (clash: bool)
    requires Ordered(chunks) && Within(chunks, content)
    requires offset <= low && high <= offset + |data|
    ensures clash <==> Clashes(chunks, content, offset, data, low, high)
  {
    hide Ordered, Within, Conflict, Has;
    var i := 0;
    while i < |chunks| && chunks[i].offset < high
      invariant 0 <= i <= |chunks| && Clean(chunks, i, content, offset, data, low, high)
    {
      hide Clean, Clashes;
      var c := chunks[i];
      var start := Larger(low, c.offset);
      var end := if c.End() < high then c.End() else high;
      if start < end {
        if data[start - offset..end - offset] != c.bytes[start - c.offset..end - c.offset] {
          Differ(chunks, i, content, offset, data, start, end);
          Clashing(chunks, content, offset, data, low, high, start, end);
          return true;
        }
        Same(c, content, offset, data, start, end, chunks, i);
      }
      CleanNext(chunks, i, content, offset, data, low, high);
      i := i + 1;
    }
    CleanAll(chunks, i, content, offset, data, low, high);
    return false;
  }

  lemma Clashing<T>(chunks: seq<Chunk<T>>, content: map<nat, byte>, offset: nat, data: Bytes, low: nat, high: nat,
                    start: nat, end: nat)
    requires low <= start && end <= high
    requires exists o: nat :: start <= o < end && Has(chunks, o) && Conflict(content, offset, data, o)
    ensures Clashes(chunks, content, offset, data, low, high)
  {
    hide Has, Conflict;
  }

  lemma Differ<T>(chunks: seq<Chunk<T>>, i: nat, content: map<nat, byte>, offset: nat, data: Bytes, start: nat,
                  end: nat)
    requires i < |chunks| && Within(chunks, content)
    requires offset <= start < end <= offset + |data| && chunks[i].offset <= start && end <= chunks[i].End()
    requires data[start - offset..end - offset] != chunks[i].bytes[start - chunks[i].offset..end - chunks[i].offset]
    ensures exists o: nat :: start <= o < end && Has(chunks, o) && Conflict(content, offset, data, o)
  {
    var c := chunks[i];
    var a, b := data[start - offset..end - offset], c.bytes[start - c.offset..end - c.offset];
    var k :| 0 <= k < |a| && a[k] != b[k];
    assert Holds(c, start + k) && Has(chunks, start + k);
    assert Conflict(content, offset, data, start + k);
  }

  lemma Same<T>(c: Chunk<T>, content: map<nat, byte>, offset: nat, data: Bytes, start: nat, end: nat,
                chunks: seq<Chunk<T>>, i: nat)
    requires i < |chunks| && chunks[i] == c && Within(chunks, content)
    requires offset <= start < end <= offset + |data| && c.offset <= start && end <= c.End()
    requires data[start - offset..end - offset] == c.bytes[start - c.offset..end - c.offset]
    ensures forall o: nat :: start <= o < end ==> !Conflict(content, offset, data, o)
  {
    forall o: nat | start <= o < end ensures !Conflict(content, offset, data, o) {
      assert Holds(c, o);
      assert data[start - offset..end - offset][o - start] == c.bytes[start - c.offset..end - c.offset][o - start];
    }
  }

  // ----- missing stretches

  function Length(ranges: seq<Range>): nat
    requires forall i :: 0 <= i < |ranges| ==> ranges[i].start <= ranges[i].end
  {
    if ranges == [] then 0
    else Length(ranges[..|ranges| - 1]) + ranges[|ranges| - 1].end - ranges[|ranges| - 1].start
  }

  /** Nonempty ranges of [low, high) in order, with at least one offset between neighbours. */
  ghost predicate InOrder(ranges: seq<Range>, low: nat, high: nat) {
    && (forall i :: 0 <= i < |ranges| ==> low <= ranges[i].start < ranges[i].end <= high)
    && forall i, j :: 0 <= i < j < |ranges| ==> ranges[i].end < ranges[j].start
  }

  /** The ranges are exactly the offsets of [low, high) that no chunk holds. */
  ghost predicate Missing<T>(chunks: seq<Chunk<T>>, low: nat, high: nat, gaps: seq<Range>) {
    && InOrder(gaps, low, high)
    && forall o: nat :: low <= o < high ==> (InRanges(gaps, o) <==> !Has(chunks, o))
  }

  lemma GrowMissing<T>(chunks: seq<Chunk<T>>, low: nat, cursor: nat, start: nat, gaps: seq<Range>)
    requires low <= cursor < start && Missing(chunks, low, cursor, gaps)
    requires gaps == [] || (low < cursor && Has(chunks, cursor - 1))
    requires forall o: nat :: cursor <= o < start ==> !Has(chunks, o)
    ensures Missing(chunks, low, start, gaps + [Range(cursor, start)])
    ensures Length(gaps + [Range(cursor, start)]) == Length(gaps) + start - cursor
  {
    var r := gaps + [Range(cursor, start)];
    forall o: nat ensures InRanges(r, o) <==> InRanges(gaps, o) || cursor <= o < start {
      InConcat(gaps, [Range(cursor, start)], o);
      InSingle(Range(cursor, start), o);
    }
    forall o: nat | cursor <= o ensures !InRanges(gaps, o) {
    }
    forall i | 0 <= i < |gaps| ensures gaps[i].end < cursor {
      assert Inside(gaps[i], gaps[i].end - 1);
      assert InRanges(gaps, gaps[i].end - 1);
    }
    assert r[..|gaps|] == gaps;
  }

  lemma ExtendMissing<T>(chunks: seq<Chunk<T>>, low: nat, cursor: nat, end: nat, gaps: seq<Range>)
    requires low <= cursor <= end && Missing(chunks, low, cursor, gaps)
    requires forall o: nat :: cursor <= o < end ==> Has(chunks, o)
    ensures Missing(chunks, low, end, gaps)
  {
    forall o: nat | cursor <= o ensures !InRanges(gaps, o) {
    }
  }

  /** src/recovery.rs, the gap search of `insert_overlapping_record` (its counting and collecting passes in one). */
  method FindGaps<T>(chunks: seq<Chunk<T>>, low: nat, end: nat) returns (gaps: seq<Range>)
    requires Ordered(chunks) && low < end
    ensures Missing(chunks, low, end, gaps)
  {
    gaps := [];
    var cursor, i := low, 0;
    while i < |chunks| && chunks[i].offset < end
      invariant 0 <= i <= |chunks|
      invariant low <= cursor <= end
      invariant Missing(chunks, low, cursor, gaps)
      invariant (cursor == low && gaps == []) || (low < cursor && Has(chunks, cursor - 1))
      invariant forall k :: 0 <= k < i ==> chunks[k].End() <= cursor || cursor == end
    {
      var c := chunks[i];
      if c.End() > low {
        var start := Larger(low, c.offset);
        var stop := if c.End() < end then c.End() else end;
        if cursor < start {
          forall o: nat | cursor <= o < start ensures !Has(chunks, o) {
            forall k | 0 <= k < |chunks| ensures !Holds(chunks[k], o) {
              assert k > i ==> c.End() <= chunks[k].offset;
            }
          }
          GrowMissing(chunks, low, cursor, start, gaps);
          gaps := gaps + [Range(cursor, start)];
          cursor := start;
        }
        if cursor < stop {
          forall o: nat | cursor <= o < stop ensures Has(chunks, o) {
            assert Holds(chunks[i], o);
          }
          ExtendMissing(chunks, low, cursor, stop, gaps);
          cursor := stop;
        }
      }
      i := i + 1;
    }
    if cursor < end {
      forall o: nat | cursor <= o < end ensures !Has(chunks, o) {
        forall k | 0 <= k < |chunks| ensures !Holds(chunks[k], o) {
          assert k > i ==> chunks[i].End() <= chunks[k].offset;
        }
      }
      GrowMissing(chunks, low, cursor, end, gaps);
      gaps := gaps + [Range(cursor, end)];
    }
  }

  /** The missing ranges of a stretch are determined by the chunks. */
  lemma MissingUnique<T>(chunks: seq<Chunk<T>>, low: nat, high: nat, a: seq<Range>, b: seq<Range>)
    requires Missing(chunks, low, high, a) && Missing(chunks, low, high, b) && high <= MAX_WIRE_OFFSET
    ensures a == b
  {
    forall o: nat ensures InRanges(a, o) <==> InRanges(b, o) {
      if !(low <= o < high) {
        assert !InRanges(a, o) && !InRanges(b, o);
      }
    }
    hide InRanges;
    RangesUnique(a, b);
  }
}
