/** What a decoding step stores and reserves, and the work it takes (src/fec.rs). */
module Storage {
  import opened Results
  import opened Sets
  import opened Galois
  import opened Rows
  import opened Elimination
  import opened Course

  // Sizes of the stored structures on a 64-bit target.
  const SIZE_ROW: nat := 48
  const SIZE_TERM: nat := 8
  const SIZE_VALUE: nat := 40
  const SIZE_RECOVERED: nat := 48

  /** src/fec.rs, `matrix_coefficient_count`. */
  function CoefficientCount(rows: seq<Row>): nat {
    if rows == [] then 0 else CoefficientCount(rows[..|rows| - 1]) + |rows[|rows| - 1].coefficients|
  }

  /** The bytes of one row with room for `columns` coefficients and `max` bytes of data. */
  function RowBytes(columns: nat, max: nat): nat {
    SIZE_ROW + max + columns * SIZE_TERM
  }

  /** src/fec.rs, `scratch_memory_bytes`. */
  function ScratchBytes(rows: nat, columns: nat, sourceBytes: nat, max: nat): nat {
    rows * RowBytes(columns, max) + RowBytes(columns, max) + rows * (2 * max + SIZE_VALUE + SIZE_RECOVERED) +
      sourceBytes
  }

  /** src/fec.rs, `row_storage_bytes` of a matrix whose rows were cloned with these capacities. */
  function RowStorage(capacity: nat, kept: nat, columns: nat, max: nat): nat {
    capacity * SIZE_ROW + kept * (max + columns * SIZE_TERM)
  }

  // ----- columns

  lemma {:induction false} TermsCount(terms: Terms)
    requires Normal(terms)
    ensures |Ids(terms)| == |terms|
  {
    if terms == [] {
      assert Ids(terms) == {};
    } else {
      TailNormal(terms);
      TermsCount(terms[1..]);
      assert terms[0].0 !in Ids(terms[1..]);
    }
  }

  /** A normal coefficient list over `ids` fits a vector with room for all of them. */
  lemma TermsFit(terms: Terms, ids: set<Id>)
    requires Normal(terms) && Ids(terms) <= ids
    ensures |terms| <= |ids|
  {
    TermsCount(terms);
    SubsetSize(Ids(terms), ids);
  }

  /** There is room for one more symbol of `ids` that the list does not mention. */
  lemma TermsLeaveRoom(terms: Terms, id: Id, ids: set<Id>)
    requires Normal(terms) && Ids(terms) <= ids && id in ids && id !in Ids(terms)
    ensures |terms| < |ids|
  {
    TermsFit(terms, ids - {id});
  }

  lemma UnionCount(a: set<Id>, b: set<Id>)
    ensures |a + b| <= |a| + |b|
  {
    assert a + b == a + (b - a) && a !! (b - a);
    SubsetSize(b - a, b);
  }

  lemma AllIdsInit(rows: seq<Row>)
    requires rows != []
    ensures AllIds(rows) == AllIds(rows[..|rows| - 1]) + Ids(rows[|rows| - 1].coefficients)
  {
    var n := |rows| - 1;
    var init, last := rows[..n], rows[n].coefficients;
    forall id | id in AllIds(rows) ensures id in AllIds(init) + Ids(last) {
      var i, k :| 0 <= i < |rows| && 0 <= k < |rows[i].coefficients| && rows[i].coefficients[k].0 == id;
      assert i < n ==> init[i] == rows[i];
    }
    forall id | id in AllIds(init) ensures id in AllIds(rows) {
      var i, k :| 0 <= i < |init| && 0 <= k < |init[i].coefficients| && init[i].coefficients[k].0 == id;
      assert rows[i].coefficients[k].0 == id;
    }
  }

  /** The reserved columns suffice for every symbol that the matrix mentions. */
  lemma {:induction false} ColumnsSuffice(rows: seq<Row>)
    requires AllNormal(rows)
    ensures |AllIds(rows)| <= CoefficientCount(rows)
  {
    if rows == [] {
      assert AllIds(rows) == {};
    } else {
      var n := |rows| - 1;
      ColumnsSuffice(rows[..n]);
      TermsCount(rows[n].coefficients);
      UnionCount(AllIds(rows[..n]), Ids(rows[n].coefficients));
      AllIdsInit(rows);
    }
  }

  lemma StepsFit(row: Row, ids: set<Id>, columns: nat, max: nat)
    requires Normal(row.coefficients) && Ids(row.coefficients) <= ids && |row.data| <= max && |ids| <= columns
    ensures |row.coefficients| <= columns && Steps(row) <= columns + max
  {
    TermsFit(row.coefficients, ids);
  }

  // ----- the whole course of an elimination

  function Times(a: nat, b: nat): nat {
    a * b
  }

  lemma PivotCostBound(rows: seq<Row>, p: nat, c: nat, size: nat)
    requires p < |rows| && c < |rows| && Divisible(rows[c]) && Steps(rows[c]) <= size
    ensures PivotCost(rows, p, c) <= Times(|rows|, size)
  {
    var a := Prepared(rows, p, c);
    assert Steps(a[p]) == Steps(rows[c]);
    PivotedIs(rows, p, c);
    ClearCostBound(a, p, |rows|);
    Product(|rows| - 1, |rows| - 1, Steps(a[p]), size);
    assert |rows| * size == (|rows| - 1) * size + size;
  }

  /** A closed form for the work that is always enough. */
  lemma {:induction false} CostBound(rows: seq<Row>, p: nat, ids: set<Id>, columns: nat, max: nat)
    requires AllNormal(rows) && Within(rows, ids, max) && |ids| <= columns && p <= |rows|
    ensures Cost(rows, p) <= Times(|rows| - p, Times(|rows|, columns + max))
    decreases |rows| - p
  {
    hide Cost, PivotCost, Pivoted, Steps, Normal, Ids, AllNormal, Times;
    CostIs(rows, p);
    var candidate := Candidate(rows, p, |rows|);
    if candidate.Some? && Divisible(rows[candidate.value]) {
      var c := candidate.value;
      RowNormal(rows, c);
      StepsFit(rows[c], ids, columns, max);
      PivotCostBound(rows, p, c, columns + max);
      PivotedNormal(rows, p, c);
      PivotedBounds(rows, p, c, ids, max);
      CostBound(Pivoted(rows, p, c), p + 1, ids, columns, max);
      Telescopes(|rows| - p, Times(|rows|, columns + max), PivotCost(rows, p, c), Cost(Pivoted(rows, p, c), p + 1));
    }
  }

  lemma CostIs(rows: seq<Row>, p: nat)
    requires p <= |rows|
    ensures var c := Candidate(rows, p, |rows|);
      Cost(rows, p) == if c.None? || !Divisible(rows[c.value]) then 0
        else PivotCost(rows, p, c.value) + Cost(Pivoted(rows, p, c.value), p + 1)
  {
  }

  lemma RowNormal(rows: seq<Row>, c: nat)
    requires AllNormal(rows) && c < |rows|
    ensures Normal(rows[c].coefficients)
  {
  }

  lemma Telescopes(n: nat, size: nat, first: nat, rest: nat)
    requires n > 0 && first <= size && rest <= Times(n - 1, size)
    ensures first + rest <= Times(n, size)
  {
    assert n * size == (n - 1) * size + size;
  }

  /** No copy of a pivot row is wider than the reserved columns. */
  lemma {:induction false} PivotsFit(rows: seq<Row>, p: nat, ids: set<Id>, columns: nat, max: nat)
    requires AllNormal(rows) && Within(rows, ids, max) && |ids| <= columns && p <= |rows|
    ensures WidestPivot(rows, p) <= columns
    decreases |rows| - p
  {
    var candidate := Candidate(rows, p, |rows|);
    if candidate.Some? && Divisible(rows[candidate.value]) {
      var c := candidate.value;
      StepsFit(rows[c], ids, columns, max);
      PivotedNormal(rows, p, c);
      PivotedBounds(rows, p, c, ids, max);
      PivotsFit(Pivoted(rows, p, c), p + 1, ids, columns, max);
    }
  }
}
