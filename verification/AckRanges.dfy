/** The set of received offsets: a prefix and a bounded list of gapped ranges (src/recovery.rs). */
module AckRanges {
  import opened Results
  import opened Varint

  datatype RecoveryError =
    | OffsetOverflow
    | InvalidRange
    | RangeCapacity
    | FlowControl
    | Capacity
    | ContradictoryOverlap
    | FinalOffset

  datatype Range = Range(start: nat, end: nat)

  ghost predicate Inside(r: Range, o: nat) {
    r.start <= o < r.end
  }

  /** Nonempty ranges in order, with at least one missing offset between neighbours. */
  ghost predicate Gapped(ranges: seq<Range>) {
    && (forall i :: 0 <= i < |ranges| ==> ranges[i].start < ranges[i].end <= MAX_WIRE_OFFSET)
    && forall i, j :: 0 <= i < j < |ranges| ==> ranges[i].end < ranges[j].start
  }

  ghost predicate InRanges(ranges: seq<Range>, o: nat) {
    exists i :: 0 <= i < |ranges| && Inside(ranges[i], o)
  }

  /** The acknowledged offsets. */
  ghost predicate Acked(contiguous: nat, ranges: seq<Range>, o: nat) {
    o < contiguous || InRanges(ranges, o)
  }

  ghost predicate Canonical(contiguous: nat, ranges: seq<Range>) {
    && contiguous <= MAX_WIRE_OFFSET
    && Gapped(ranges)
    && forall i :: 0 <= i < |ranges| ==> contiguous < ranges[i].start
  }

  predicate Touches(r: Range, start: nat, end: nat) {
    r.end >= start && r.start <= end
  }

  /** src/recovery.rs, `validate_insert`. */
  function Validate(contiguous: nat, ranges: seq<Range>, maxRanges: nat, r: Range): Option<RecoveryError> {
    if r.start >= r.end || r.end > MAX_WIRE_OFFSET then Some(InvalidRange)
    else if r.end <= contiguous || |ranges| < maxRanges then None
    else
      var start := if r.start < contiguous then contiguous else r.start;
      if exists i :: 0 <= i < |ranges| && Touches(ranges[i], start, r.end) then None
      else Some(RangeCapacity)
  }

  /** o lies in [start, end) or right beside it. */
  ghost predicate Beside(o: nat, start: nat, end: nat) {
    start <= o + 1 && o <= end
  }

  /**
   * The list is full, the range reaches past the prefix, and no offset held in a range lies in or next to what the
   * prefix leaves of it.
   */
  ghost predicate Crowded(contiguous: nat, ranges: seq<Range>, maxRanges: nat, r: Range) {
    && |ranges| >= maxRanges && contiguous < r.end
    && forall o :: InRanges(ranges, o) ==> !Beside(o, Larger(r.start, contiguous), r.end)
  }

  lemma TouchesIs(r: Range, start: nat, end: nat)
    requires r.start < r.end && start < end
    ensures Touches(r, start, end) <==> exists o :: Inside(r, o) && Beside(o, start, end)
  {
    if Touches(r, start, end) {
      var o := if r.start + 1 >= start then r.start else start - 1;
      assert Inside(r, o) && Beside(o, start, end);
    }
  }

  /** What the checks before an insertion mean for offsets. */
  lemma ValidateIs(contiguous: nat, ranges: seq<Range>, maxRanges: nat, r: Range)
    requires Canonical(contiguous, ranges)
    ensures var error := Validate(contiguous, ranges, maxRanges, r);
      && (error == Some(InvalidRange) <==> r.start >= r.end || r.end > MAX_WIRE_OFFSET)
      && (error == Some(RangeCapacity) <==>
            r.start < r.end <= MAX_WIRE_OFFSET && Crowded(contiguous, ranges, maxRanges, r))
      && (error.None? || error == Some(InvalidRange) || error == Some(RangeCapacity))
  {
    var start := Larger(r.start, contiguous);
    if r.start < r.end && contiguous < r.end {
      forall i | 0 <= i < |ranges|
        ensures Touches(ranges[i], start, r.end) <==> exists o :: Inside(ranges[i], o) && Beside(o, start, r.end)
      {
        TouchesIs(ranges[i], start, r.end);
      }
    }
  }

  lemma InConcat(a: seq<Range>, b: seq<Range>, o: nat)
    ensures InRanges(a + b, o) <==> InRanges(a, o) || InRanges(b, o)
  {
    var c := a + b;
    if InRanges(a, o) {
      var i :| 0 <= i < |a| && Inside(a[i], o);
      assert Inside(c[i], o);
    }
    if InRanges(b, o) {
      var i :| 0 <= i < |b| && Inside(b[i], o);
      assert Inside(c[|a| + i], o);
    }
    if InRanges(c, o) {
      var i :| 0 <= i < |c| && Inside(c[i], o);
      if i >= |a| {
        assert Inside(b[i - |a|], o);
      }
    }
  }

  lemma InSingle(r: Range, o: nat)
    ensures InRanges([r], o) <==> Inside(r, o)
  {
    assert [r][0] == r;
  }

  // Replacing a stretch of ranges by their hull with the new one is union.
  lemma SpliceIsUnion(ranges: seq<Range>, first: nat, last: nat, merged: Range, clipped: Range, o: nat)
    requires first <= last <= |ranges|
    requires Inside(merged, o) <==> Inside(clipped, o) || InRanges(ranges[first..last], o)
    ensures InRanges(ranges[..first] + [merged] + ranges[last..], o) <==> InRanges(ranges, o) || Inside(clipped, o)
  {
    hide InRanges, Inside;
    assert ranges == ranges[..first] + ranges[first..last] + ranges[last..];
    InConcat(ranges[..first] + ranges[first..last], ranges[last..], o);
    InConcat(ranges[..first], ranges[first..last], o);
    InConcat(ranges[..first] + [merged], ranges[last..], o);
    InConcat(ranges[..first], [merged], o);
    InSingle(merged, o);
  }

  /** src/recovery.rs, the merge step of `insert`. */
  method Merge(ranges: seq<Range>, clipped: Range, floor: nat) returns (r: seq<Range>)
    requires Gapped(ranges) && clipped.start < clipped.end <= MAX_WIRE_OFFSET
    requires floor <= clipped.start && forall i :: 0 <= i < |ranges| ==> floor <= ranges[i].start
    ensures Gapped(r)
    ensures forall o :: InRanges(r, o) <==> InRanges(ranges, o) || Inside(clipped, o)
    ensures |r| <= |ranges| + 1
    ensures (exists i :: 0 <= i < |ranges| && Touches(ranges[i], clipped.start, clipped.end)) ==> |r| <= |ranges|
    ensures forall i :: 0 <= i < |r| ==> floor <= r[i].start
  {
    var merged := clipped;
    var first := 0;
    while first < |ranges| && ranges[first].end < merged.start
      invariant 0 <= first <= |ranges|
      invariant forall i :: 0 <= i < first ==> ranges[i].end < merged.start
    {
      first := first + 1;
    }
    var last := first;
    assert ranges[first..last] == [];
    while last < |ranges| && ranges[last].start <= merged.end
      invariant first <= last <= |ranges|
      invariant merged.start <= clipped.start && clipped.end <= merged.end <= MAX_WIRE_OFFSET
      invariant merged.start == clipped.start || (first < last && merged.start == ranges[first].start)
      invariant forall i :: 0 <= i < first ==> ranges[i].end < merged.start
      invariant forall o :: Inside(merged, o) <==> Inside(clipped, o) || InRanges(ranges[first..last], o)
    {
      var current := ranges[last];
      assert clipped.start <= current.end;
      Widen(ranges, first, last, merged, clipped);
      merged := Hull(merged, current);
      last := last + 1;
    }
    SpliceGapped(ranges, first, last, merged, floor);
    forall o
      ensures InRanges(ranges[..first] + [merged] + ranges[last..], o) <==> InRanges(ranges, o) || Inside(clipped, o)
    {
      SpliceIsUnion(ranges, first, last, merged, clipped, o);
    }
    hide InRanges, Inside, Gapped;
    return ranges[..first] + [merged] + ranges[last..];
  }

  lemma GappedConcat(a: seq<Range>, b: seq<Range>, floor: nat)
    requires Gapped(a) && Gapped(b) && forall i, j :: 0 <= i < |a| && 0 <= j < |b| ==> a[i].end < b[j].start
    requires forall i :: 0 <= i < |a| ==> floor <= a[i].start
    requires forall i :: 0 <= i < |b| ==> floor <= b[i].start
    ensures Gapped(a + b) && forall i :: 0 <= i < |a + b| ==> floor <= (a + b)[i].start
  {
    var c := a + b;
    assert forall i :: 0 <= i < |c| ==> c[i] == if i < |a| then a[i] else b[i - |a|];
  }

  lemma SpliceGapped(ranges: seq<Range>, first: nat, last: nat, merged: Range, floor: nat)
    requires Gapped(ranges) && first <= last <= |ranges|
    requires floor <= merged.start < merged.end <= MAX_WIRE_OFFSET
    requires forall i :: 0 <= i < |ranges| ==> floor <= ranges[i].start
    requires forall i :: 0 <= i < first ==> ranges[i].end < merged.start
    requires last < |ranges| ==> merged.end < ranges[last].start
    ensures Gapped(ranges[..first] + [merged] + ranges[last..])
    ensures forall i :: 0 <= i < |ranges[..first] + [merged] + ranges[last..]| ==>
      floor <= (ranges[..first] + [merged] + ranges[last..])[i].start
  {
    var a, b := ranges[..first], ranges[last..];
    forall k | last <= k < |ranges| ensures merged.end < ranges[k].start {
      assert k > last ==> ranges[last].end < ranges[k].start;
    }
    GappedConcat(a, [merged], floor);
    var c := a + [merged];
    assert forall i :: 0 <= i < |c| ==> c[i] == if i < first then ranges[i] else merged;
    assert forall i :: 0 <= i < |b| ==> b[i] == ranges[last + i];
    GappedConcat(c, b, floor);
  }

  function Smaller(a: nat, b: nat): nat {
    if a < b then a else b
  }

  function Larger(a: nat, b: nat): nat {
    if a < b then b else a
  }

  function Hull(a: Range, b: Range): Range {
    Range(if b.start < a.start then b.start else a.start, if b.end > a.end then b.end else a.end)
  }

  // The hull of two ranges that meet is their union.
  lemma Widen(ranges: seq<Range>, first: nat, last: nat, merged: Range, clipped: Range)
    requires first <= last < |ranges|
    requires merged.start <= ranges[last].end && ranges[last].start <= merged.end
    requires merged.start < merged.end && ranges[last].start < ranges[last].end
    requires forall o :: Inside(merged, o) <==> Inside(clipped, o) || InRanges(ranges[first..last], o)
    ensures forall o :: Inside(Hull(merged, ranges[last]), o) <==>
      Inside(clipped, o) || InRanges(ranges[first..last + 1], o)
  {
    forall o ensures Inside(Hull(merged, ranges[last]), o) <==>
      Inside(clipped, o) || InRanges(ranges[first..last + 1], o)
    {
      assert ranges[first..last + 1] == ranges[first..last] + [ranges[last]];
      InConcat(ranges[first..last], [ranges[last]], o);
      InSingle(ranges[last], o);
    }
  }

  /** src/recovery.rs, the closing loop of `insert`: ranges that meet the prefix join it. */
  method Absorb(contiguous: nat, ranges: seq<Range>) returns (c: nat, r: seq<Range>)
    requires Gapped(ranges) && contiguous <= MAX_WIRE_OFFSET
    requires forall i :: 0 <= i < |ranges| ==> contiguous <= ranges[i].start
    ensures Canonical(c, r) && |r| <= |ranges|
    ensures forall o :: Acked(c, r, o) <==> Acked(contiguous, ranges, o)
  {
    c, r := contiguous, ranges;
    while |r| > 0 && r[0].start <= c
      invariant Gapped(r) && c <= MAX_WIRE_OFFSET && |r| <= |ranges|
      invariant forall i :: 0 <= i < |r| ==> c <= r[i].start
      invariant forall o :: Acked(c, r, o) <==> Acked(contiguous, ranges, o)
    {
      var head := r[0];
      forall o ensures InRanges(r, o) <==> Inside(head, o) || InRanges(r[1..], o) {
        assert r == [head] + r[1..];
        InConcat([head], r[1..], o);
        InSingle(head, o);
      }
      r := r[1..];
      c := Larger(c, head.end);
    }
  }

  class AckRanges {
    var contiguous: nat
    var ranges: seq<Range>
    const maxRanges: nat

    ghost predicate Valid()
      reads this
    {
      Canonical(contiguous, ranges) && |ranges| <= maxRanges
    }

    constructor (maxRanges: nat)
      ensures Valid() && this.maxRanges == maxRanges && contiguous == 0 && ranges == []
    {
      contiguous, ranges := 0, [];
      this.maxRanges := maxRanges;
    }

    /** src/recovery.rs, `insert`: exactly set union, or nothing. */
    method Insert(range: Range) returns (error: Option<RecoveryError>)
      requires Valid()
      modifies this
      ensures Valid() && |ranges| <= |old(ranges)| + 1
      ensures error == Validate(old(contiguous), old(ranges), maxRanges, range)
      ensures error == Some(InvalidRange) <==> range.start >= range.end || range.end > MAX_WIRE_OFFSET
      ensures error == Some(RangeCapacity) <==>
        range.start < range.end <= MAX_WIRE_OFFSET && Crowded(old(contiguous), old(ranges), maxRanges, range)
      ensures error.Some? ==> contiguous == old(contiguous) && ranges == old(ranges)
      ensures error.None? ==> forall o ::
        Acked(contiguous, ranges, o) <==> Acked(old(contiguous), old(ranges), o) || Inside(range, o)
    {
      ValidateIs(contiguous, ranges, maxRanges, range);
      error := Validate(contiguous, ranges, maxRanges, range);
      hide Crowded;
      if error.Some? || range.end <= contiguous {
        return;
      }
      var clipped := Range(Larger(range.start, contiguous), range.end);
      var merged := Merge(ranges, clipped, contiguous);
      contiguous, ranges := Absorb(contiguous, merged);
    }

    /** src/recovery.rs, `from_wire`: the set a peer announces, within what was sent. */
    method FromWire(contiguous: nat, ranges: seq<Range>, sentOffset: nat) returns (error: Option<RecoveryError>)
      requires Valid() && this.contiguous == 0 && this.ranges == [] && contiguous <= MAX_WIRE_OFFSET
      modifies this
      ensures error.None? ==> Valid()
      ensures error.Some? ==> error == Some(InvalidRange)
      ensures error.None? <==>
        && contiguous <= sentOffset && |ranges| <= maxRanges
        && forall i :: 0 <= i < |ranges| ==>
             ranges[i].start < ranges[i].end <= sentOffset && ranges[i].end <= MAX_WIRE_OFFSET
      ensures error.None? ==> forall o: nat ::
        Acked(this.contiguous, this.ranges, o) <==> o < contiguous || InRanges(ranges, o)
    {
      if contiguous > sentOffset || |ranges| > maxRanges {
        return Some(InvalidRange);
      }
      this.contiguous := contiguous;
      var i := 0;
      assert ranges[..0] == [];
      while i < |ranges|
        invariant 0 <= i <= |ranges| && Valid() && |this.ranges| <= i
        invariant forall k :: 0 <= k < i ==>
          ranges[k].start < ranges[k].end <= sentOffset && ranges[k].end <= MAX_WIRE_OFFSET
        invariant forall o: nat :: Acked(this.contiguous, this.ranges, o) <==>
            o < contiguous || InRanges(ranges[..i], o)
      {
        if ranges[i].end > sentOffset {
          return Some(InvalidRange);
        }
        error := Insert(ranges[i]);
        if error.Some? {
          return;
        }
        forall o ensures InRanges(ranges[..i + 1], o) <==> InRanges(ranges[..i], o) || Inside(ranges[i], o) {
          assert ranges[..i + 1] == ranges[..i] + [ranges[i]];
          InConcat(ranges[..i], [ranges[i]], o);
          InSingle(ranges[i], o);
        }
        i := i + 1;
      }
      assert ranges[..|ranges|] == ranges;
      return None;
    }
  }

  // ----- the stored form is determined by the set it stands for

  lemma {:induction false} RangesUnique(a: seq<Range>, b: seq<Range>)
    requires Gapped(a) && Gapped(b)
    requires forall o :: InRanges(a, o) <==> InRanges(b, o)
    ensures a == b
  {
    if a != [] {
      assert Inside(a[0], a[0].start);
      assert b != [] by { assert InRanges(b, a[0].start); }
    }
    if b != [] {
      assert Inside(b[0], b[0].start);
      assert a != [] by { assert InRanges(a, b[0].start); }
    }
    if a != [] && b != [] {
      assert InRanges(b, a[0].start) && InRanges(a, b[0].start);
      assert a[0].start == b[0].start;
      assert !InRanges(a, a[0].end) && !InRanges(b, b[0].end);
      var p, q := a[0], b[0];
      assert p.end < q.end ==> Inside(q, p.end);
      assert q.end < p.end ==> Inside(p, q.end);
      forall o ensures InRanges(a[1..], o) <==> InRanges(b[1..], o) {
        TailRanges(a, o);
        TailRanges(b, o);
      }
      RangesUnique(a[1..], b[1..]);
    }
  }

  lemma TailRanges(a: seq<Range>, o: nat)
    requires Gapped(a) && a != []
    ensures InRanges(a[1..], o) <==> InRanges(a, o) && o >= a[0].end
  {
    if InRanges(a[1..], o) {
      var i :| 0 <= i < |a[1..]| && Inside(a[1..][i], o);
      assert Inside(a[i + 1], o);
    }
    if InRanges(a, o) && o >= a[0].end {
      var i :| 0 <= i < |a| && Inside(a[i], o);
      assert Inside(a[1..][i - 1], o);
    }
  }

  /** Equal sets have equal representations, and the prefix ends at the first missing offset. */
  lemma CanonicalUnique(c: nat, a: seq<Range>, d: nat, b: seq<Range>)
    requires Canonical(c, a) && Canonical(d, b)
    requires forall o :: Acked(c, a, o) <==> Acked(d, b, o)
    ensures c == d && a == b
  {
    FirstMissing(c, a);
    FirstMissing(d, b);
    forall o: nat ensures InRanges(a, o) <==> InRanges(b, o) {
      if o < c {
        assert !InRanges(a, o) && !InRanges(b, o);
      } else {
        assert Acked(c, a, o) <==> Acked(d, b, o);
      }
    }
    RangesUnique(a, b);
  }

  lemma FirstMissing(c: nat, a: seq<Range>)
    requires Canonical(c, a)
    ensures !Acked(c, a, c)
    ensures forall o: nat :: o < c ==> Acked(c, a, o) && !InRanges(a, o)
  {
  }

  /** A nonempty stretch is acknowledged throughout exactly when the prefix or one single range contains it. */
  lemma StretchCovered(c: nat, a: seq<Range>, start: nat, end: nat)
    requires Canonical(c, a) && start < end
    ensures (forall o :: start <= o < end ==> Acked(c, a, o)) <==>
      end <= c || exists i :: 0 <= i < |a| && a[i].start <= start && end <= a[i].end
  {
    FirstMissing(c, a);
    if i :| 0 <= i < |a| && a[i].start <= start && end <= a[i].end {
      forall o | start <= o < end ensures Acked(c, a, o) {
        assert Inside(a[i], o);
      }
    }
    if forall o :: start <= o < end ==> Acked(c, a, o) {
      if start < c {
        // The first missing offset is c, so the stretch ends before it.
        assert end <= c;
      } else {
        assert Acked(c, a, start);
        var k :| 0 <= k < |a| && Inside(a[k], start);
        // The offset right after range k is missing.
        var next := a[k].end;
        assert !InRanges(a, next);
        assert next < end ==> Acked(c, a, next);
      }
    }
  }

  /** A range past the prefix is refused only if no list within the limit could hold it as well. */
  lemma RefusalNeeded(contiguous: nat, ranges: seq<Range>, maxRanges: nat, r: Range, c: nat, all: seq<Range>)
    requires Canonical(contiguous, ranges) && contiguous < r.start
    requires Validate(contiguous, ranges, maxRanges, r) == Some(RangeCapacity)
    requires Canonical(c, all)
    requires forall o :: Acked(c, all, o) <==> Acked(contiguous, ranges, o) || Inside(r, o)
    ensures |all| == |ranges| + 1 > maxRanges
  {
    var k := Slot(ranges, r);
    var b := ranges[..k] + [r] + ranges[k..];
    assert Canonical(contiguous, b) by {
      assert forall i :: 0 <= i < k ==> b[i] == ranges[i];
      assert b[k] == r;
      assert forall i :: k < i < |b| ==> b[i] == ranges[i - 1];
    }
    hide Canonical, Inside;
    forall o ensures Acked(contiguous, b, o) <==> Acked(c, all, o) {
      assert ranges[k..k] == [];
      SpliceIsUnion(ranges, k, k, r, r, o) by { assert !InRanges([], o); }
    }
    CanonicalUnique(contiguous, b, c, all);
  }

  // Where a range that touches none belongs.
  lemma Slot(ranges: seq<Range>, r: Range) returns (k: nat)
    requires Gapped(ranges) && r.start < r.end
    requires forall i :: 0 <= i < |ranges| ==> !Touches(ranges[i], r.start, r.end)
    ensures k <= |ranges|
    ensures forall i :: 0 <= i < k ==> ranges[i].end < r.start
    ensures forall i :: k <= i < |ranges| ==> r.end < ranges[i].start
  {
    k := 0;
    while k < |ranges| && ranges[k].end < r.start
      invariant 0 <= k <= |ranges|
      invariant forall i :: 0 <= i < k ==> ranges[i].end < r.start
    {
      k := k + 1;
    }
  }

  /**
   * A range that only extends the prefix is refused as well when the list is full and the range reaches no stored
   * one, although the same list would still do.
   */
  lemma PrefixRefused(contiguous: nat, ranges: seq<Range>, maxRanges: nat, r: Range)
    requires Canonical(contiguous, ranges) && |ranges| == maxRanges && r.start <= contiguous < r.end <= MAX_WIRE_OFFSET
    requires forall i :: 0 <= i < |ranges| ==> r.end < ranges[i].start
    ensures Validate(contiguous, ranges, maxRanges, r) == Some(RangeCapacity)
    ensures Canonical(r.end, ranges)
    ensures forall o :: Acked(r.end, ranges, o) <==> Acked(contiguous, ranges, o) || Inside(r, o)
  {
    forall i | 0 <= i < |ranges| ensures !Touches(ranges[i], contiguous, r.end) {
    }
    forall o ensures Acked(r.end, ranges, o) <==> Acked(contiguous, ranges, o) || Inside(r, o) {
      hide InRanges;
    }
  }

  lemma PrefixRefusedInput()
    ensures Validate(0, [Range(10, 20)], 1, Range(0, 5)) == Some(RangeCapacity)
    ensures Validate(0, [Range(10, 20)], 1, Range(5, 10)) == None
  {
    PrefixRefused(0, [Range(10, 20)], 1, Range(0, 5));
    assert Touches([Range(10, 20)][0], 5, 10);
  }
}
