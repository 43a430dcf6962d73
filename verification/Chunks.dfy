/** Ordered, disjoint chunks of a byte stream: the ordered maps of src/recovery.rs and what they hold. */
module Chunks {
  import opened Galois
  import opened Varint

  /** A map entry: its key, its bytes, and what is kept with them. */
  datatype Chunk<+T> = Chunk(offset: nat, bytes: Bytes, tag: T) {
    function End(): nat {
      offset + |bytes|
    }
  }

  ghost predicate Ordered<T>(chunks: seq<Chunk<T>>) {
    && (forall i :: 0 <= i < |chunks| ==> chunks[i].bytes != [] && chunks[i].End() <= MAX_WIRE_OFFSET)
    && forall i, j :: 0 <= i < j < |chunks| ==> chunks[i].End() <= chunks[j].offset
  }

  // ----- the bytes that chunks hold, by offset

  ghost predicate Holds<T>(c: Chunk<T>, o: nat) {
    c.offset <= o < c.End()
  }

  ghost predicate Has<T>(chunks: seq<Chunk<T>>, o: nat) {
    exists i :: 0 <= i < |chunks| && Holds(chunks[i], o)
  }

  /** Every byte held agrees with `content`. */
  ghost predicate Within<T>(chunks: seq<Chunk<T>>, content: map<nat, byte>) {
    forall i, o: nat :: 0 <= i < |chunks| && Holds(chunks[i], o) ==>
      o in content && content[o] == chunks[i].bytes[o - chunks[i].offset]
  }

  lemma HasConcat<T>(a: seq<Chunk<T>>, b: seq<Chunk<T>>, o: nat)
    ensures Has(a + b, o) <==> Has(a, o) || Has(b, o)
  {
    var c := a + b;
    if Has(a, o) {
      var i :| 0 <= i < |a| && Holds(a[i], o);
      assert Holds(c[i], o);
    }
    if Has(b, o) {
      var i :| 0 <= i < |b| && Holds(b[i], o);
      assert Holds(c[|a| + i], o);
    }
    if Has(c, o) {
      var i :| 0 <= i < |c| && Holds(c[i], o);
      assert i < |a| || Holds(b[i - |a|], o);
    }
  }

  predicate Between(low: nat, o: nat, high: nat) {
    low <= o < high
  }

  function Offsets(low: nat, high: nat): set<nat> {
    set o: nat | low <= o < high && Between(low, o, high)
  }

  /** First come, first kept: the stream content after `bytes` arrive at `offset`. */
  function Accept(content: map<nat, byte>, offset: nat, bytes: Bytes): map<nat, byte> {
    map o | o in content.Keys + Offsets(offset, offset + |bytes|) ::
      if o in content then content[o] else if offset <= o < offset + |bytes| then bytes[o - offset] else 0
  }

  /** The stretch of `content` that starts at `start` reads `bytes`. */
  ghost predicate Spells(content: map<nat, byte>, start: nat, bytes: Bytes) {
    forall o: nat :: start <= o < start + |bytes| ==> o in content && content[o] == bytes[o - start]
  }

  lemma SpellsMore(content: map<nat, byte>, start: nat, a: Bytes, b: Bytes)
    requires Spells(content, start, a) && Spells(content, start + |a|, b)
    ensures Spells(content, start, a + b)
  {
  }

  // ----- sizes

  function Size<T>(chunks: seq<Chunk<T>>): nat {
    if chunks == [] then 0 else Size(chunks[..|chunks| - 1]) + |chunks[|chunks| - 1].bytes|
  }

  /** The part of a chunk at or past `next`. */
  function Unread(offset: nat, end: nat, next: nat): nat {
    if end <= next || end <= offset then 0 else if offset <= next then end - next else end - offset
  }

  function UnreadSize<T>(chunks: seq<Chunk<T>>, next: nat): nat {
    if chunks == [] then 0
    else
      var last := chunks[|chunks| - 1];
      UnreadSize(chunks[..|chunks| - 1], next) + Unread(last.offset, last.End(), next)
  }

  lemma {:induction false} SizeConcat<T>(a: seq<Chunk<T>>, b: seq<Chunk<T>>)
    ensures Size(a + b) == Size(a) + Size(b)
  {
    if b == [] {
      assert a + b == a;
    } else {
      var n := |b| - 1;
      SizeConcat(a, b[..n]);
      assert (a + b)[..|a + b| - 1] == a + b[..n];
    }
  }

  lemma {:induction false} UnreadConcat<T>(a: seq<Chunk<T>>, b: seq<Chunk<T>>, next: nat)
    ensures UnreadSize(a + b, next) == UnreadSize(a, next) + UnreadSize(b, next)
  {
    if b == [] {
      assert a + b == a;
    } else {
      var n := |b| - 1;
      UnreadConcat(a, b[..n], next);
      assert (a + b)[..|a + b| - 1] == a + b[..n];
    }
  }

  // Disjoint chunks inside a window cannot hold more than the window.
  lemma {:induction false} UnreadFits<T>(chunks: seq<Chunk<T>>, next: nat, limit: nat)
    requires Ordered(chunks) && next <= limit
    requires chunks != [] ==> chunks[|chunks| - 1].End() <= limit
    ensures next + UnreadSize(chunks, next) <= limit
  {
    if chunks != [] {
      var n := |chunks| - 1;
      var last := chunks[n];
      if last.offset <= next {
        forall i | 0 <= i < n ensures chunks[i].End() <= next {
        }
        UnreadNone(chunks[..n], next);
      } else {
        UnreadFits(chunks[..n], next, last.offset);
      }
    }
  }

  lemma {:induction false} UnreadNone<T>(chunks: seq<Chunk<T>>, next: nat)
    requires forall i :: 0 <= i < |chunks| ==> chunks[i].End() <= next
    ensures UnreadSize(chunks, next) == 0
  {
    if chunks != [] {
      UnreadNone(chunks[..|chunks| - 1], next);
    }
  }

  // ----- ordered insertion

  /** How many chunks start before `limit`: the position of a search in the ordered map. */
  method CountBelow<T>(chunks: seq<Chunk<T>>, limit: nat) returns (n: nat)
    requires Ordered(chunks)
    ensures n <= |chunks|
    ensures forall i :: 0 <= i < n ==> chunks[i].offset < limit
    ensures forall i :: n <= i < |chunks| ==> limit <= chunks[i].offset
  {
    n := 0;
    while n < |chunks| && chunks[n].offset < limit
      invariant 0 <= n <= |chunks|
      invariant forall i :: 0 <= i < n ==> chunks[i].offset < limit
    {
      n := n + 1;
    }
  }

  /** Looks at the last chunk that starts before `end`: it reaches past `offset` exactly when something overlaps. */
  method FindSlot<T>(chunks: seq<Chunk<T>>, offset: nat, end: nat) returns (n: nat, overlaps: bool)
    requires Ordered(chunks) && offset < end
    ensures n <= |chunks|
    ensures overlaps <==> exists o: nat :: offset <= o < end && Has(chunks, o)
    ensures !overlaps ==> (n > 0 ==> chunks[n - 1].End() <= offset) && (n < |chunks| ==> end <= chunks[n].offset)
  {
    n := CountBelow(chunks, end);
    overlaps := n > 0 && chunks[n - 1].End() > offset;
    if overlaps {
      ghost var o: nat := if offset > chunks[n - 1].offset then offset else chunks[n - 1].offset;
      assert Holds(chunks[n - 1], o);
      assert Has(chunks, o);
    } else {
      forall o: nat | offset <= o < end ensures !Has(chunks, o) {
        forall i | 0 <= i < |chunks| ensures !Holds(chunks[i], o) {
          if i < n {
            assert i == n - 1 || chunks[i].End() <= chunks[n - 1].offset;
          }
        }
      }
    }
  }

  ghost predicate Fits<T>(chunks: seq<Chunk<T>>, n: nat, c: Chunk<T>) {
    && n <= |chunks| && c.bytes != [] && c.End() <= MAX_WIRE_OFFSET
    && (n > 0 ==> chunks[n - 1].End() <= c.offset)
    && (n < |chunks| ==> c.End() <= chunks[n].offset)
  }

  function InsertAt<T>(chunks: seq<Chunk<T>>, n: nat, c: Chunk<T>): seq<Chunk<T>>
    requires n <= |chunks|
  {
    chunks[..n] + [c] + chunks[n..]
  }

  lemma InsertIndex<T>(chunks: seq<Chunk<T>>, n: nat, c: Chunk<T>)
    requires n <= |chunks|
    ensures forall i :: 0 <= i < |InsertAt(chunks, n, c)| ==>
      InsertAt(chunks, n, c)[i] == if i < n then chunks[i] else if i == n then c else chunks[i - 1]
  {
    var r := InsertAt(chunks, n, c);
    forall i | 0 <= i < |r| ensures r[i] == if i < n then chunks[i] else if i == n then c else chunks[i - 1] {
    }
  }

  lemma InsertIs<T>(chunks: seq<Chunk<T>>, n: nat, c: Chunk<T>)
    requires Ordered(chunks) && Fits(chunks, n, c)
    ensures Ordered(InsertAt(chunks, n, c))
    ensures forall i :: 0 <= i < |InsertAt(chunks, n, c)| ==>
      InsertAt(chunks, n, c)[i] == if i < n then chunks[i] else if i == n then c else chunks[i - 1]
  {
    InsertIndex(chunks, n, c);
    var r := InsertAt(chunks, n, c);
    assert |r| == |chunks| + 1;
    forall i | 0 <= i < n ensures chunks[i].End() <= c.offset {
      assert i == n - 1 || chunks[i].End() <= chunks[n - 1].offset;
    }
    forall i | n <= i < |chunks| ensures c.End() <= chunks[i].offset {
      assert i == n || chunks[n].End() <= chunks[i].offset;
    }
    hide InsertAt;
    forall i, j | 0 <= i < j < |r| ensures r[i].End() <= r[j].offset {
    }
  }

  lemma InsertHas<T>(chunks: seq<Chunk<T>>, n: nat, c: Chunk<T>, o: nat)
    requires n <= |chunks|
    ensures Has(InsertAt(chunks, n, c), o) <==> Has(chunks, o) || Holds(c, o)
  {
    hide Holds;
    assert chunks == chunks[..n] + chunks[n..];
    HasConcat(chunks[..n] + [c], chunks[n..], o);
    HasConcat(chunks[..n], [c], o);
    HasConcat(chunks[..n], chunks[n..], o);
    assert Has([c], o) <==> Holds(c, o) by { assert [c][0] == c; }
  }

  lemma InsertSizes<T>(chunks: seq<Chunk<T>>, n: nat, c: Chunk<T>, next: nat)
    requires n <= |chunks|
    ensures Size(InsertAt(chunks, n, c)) == Size(chunks) + |c.bytes|
    ensures UnreadSize(InsertAt(chunks, n, c), next) == UnreadSize(chunks, next) + Unread(c.offset, c.End(), next)
  {
    var a, b := chunks[..n], chunks[n..];
    assert chunks == a + b;
    SizeConcat(a + [c], b); SizeConcat(a, [c]); SizeConcat(a, b);
    UnreadConcat(a + [c], b, next); UnreadConcat(a, [c], next); UnreadConcat(a, b, next);
    assert [c][..0] == [];
  }

  // ----- filtering by a set of positions to keep

  /** The chunks that `keep` accepts, in order. */
  function Select<T>(chunks: seq<Chunk<T>>, keep: Chunk<T> -> bool): (r: seq<Chunk<T>>)
    ensures |r| <= |chunks|
  {
    if chunks == [] then []
    else
      var last := chunks[|chunks| - 1];
      Select(chunks[..|chunks| - 1], keep) + (if keep(last) then [last] else [])
  }

  lemma {:induction false} SelectFrom<T>(chunks: seq<Chunk<T>>, keep: Chunk<T> -> bool, k: nat) returns (i: nat)
    requires k < |Select(chunks, keep)|
    ensures i < |chunks| && Select(chunks, keep)[k] == chunks[i] && keep(chunks[i])
  {
    i := |chunks| - 1;
    if k < |Select(chunks[..i], keep)| {
      i := SelectFrom(chunks[..i], keep, k);
    }
  }

  lemma {:induction false} SelectHas<T>(chunks: seq<Chunk<T>>, keep: Chunk<T> -> bool, i: nat) returns (k: nat)
    requires i < |chunks| && keep(chunks[i])
    ensures k < |Select(chunks, keep)| && Select(chunks, keep)[k] == chunks[i]
  {
    if i < |chunks| - 1 {
      k := SelectHas(chunks[..|chunks| - 1], keep, i);
    } else {
      k := |Select(chunks, keep)| - 1;
    }
  }

  lemma PushOrdered<T>(chunks: seq<Chunk<T>>, c: Chunk<T>)
    requires Ordered(chunks) && c.bytes != [] && c.End() <= MAX_WIRE_OFFSET
    requires forall k :: 0 <= k < |chunks| ==> chunks[k].End() <= c.offset
    ensures Ordered(chunks + [c])
  {
  }

  lemma {:induction false} SelectOrdered<T>(chunks: seq<Chunk<T>>, keep: Chunk<T> -> bool)
    requires Ordered(chunks)
    ensures Ordered(Select(chunks, keep))
  {
    if chunks != [] {
      var n := |chunks| - 1;
      var init := Select(chunks[..n], keep);
      SelectOrdered(chunks[..n], keep);
      forall k | 0 <= k < |init| ensures init[k].End() <= chunks[n].offset {
        var i := SelectFrom(chunks[..n], keep, k);
      }
      PushOrdered(init, chunks[n]);
      assert init + [] == init;
      hide Ordered;
    }
  }
}
