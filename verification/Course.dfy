/** The course that `reduce` takes through a matrix: its pivots, its work and its copies (src/fec.rs). */
module Course {
  import opened Results
  import opened Galois
  import opened Rows
  import opened Elimination

  /** The first row with the lowest leading symbol among rows p to n. */
  function Candidate(rows: seq<Row>, p: nat, n: nat): (c: Option<nat>)
    requires p <= n <= |rows|
    ensures c.Some? ==> p <= c.value < n && rows[c.value].coefficients != []
    ensures c.Some? ==>
      forall i :: p <= i < n && rows[i].coefficients != [] ==> Lead(rows[c.value]) <= Lead(rows[i])
    ensures c.None? ==> forall i :: p <= i < n ==> rows[i].coefficients == []
    decreases n
  {
    if n == p then None
    else
      var c := Candidate(rows, p, n - 1);
      if rows[n - 1].coefficients != [] && (c.None? || Lead(rows[n - 1]) < Lead(rows[c.value])) then Some(n - 1) else c
  }

  /** A row can be divided by its leading coefficient. */
  predicate Divisible(row: Row) {
    row.coefficients != [] && row.coefficients[0].1 != 0
  }

  function Steps(row: Row): nat {
    |row.coefficients| + |row.data|
  }

  /** The work of clearing the pivot's symbol from the first n rows. */
  function ClearCost(rows: seq<Row>, pivot: nat, n: nat): nat
    requires pivot < |rows| && rows[pivot].coefficients != [] && n <= |rows|
  {
    if n == 0 then 0
    else
      var hit := n - 1 != pivot && Coef(rows[n - 1].coefficients, Lead(rows[pivot])) != 0;
      ClearCost(rows, pivot, n - 1) + if hit then Steps(rows[pivot]) else 0
  }

  /** The work of clearing the pivot's symbol from all rows. */
  function ColumnCost(rows: seq<Row>, pivot: nat): nat
    requires pivot < |rows| && rows[pivot].coefficients != []
  {
    ClearCost(rows, pivot, |rows|)
  }

  /** The work of one pivot: dividing its row, then clearing its symbol. */
  function PivotCost(rows: seq<Row>, p: nat, c: nat): nat
    requires p < |rows| && c < |rows| && Divisible(rows[c])
  {
    Steps(rows[c]) + ColumnCost(Prepared(rows, p, c), p)
  }

  /** The matrix in which the pivot at p is in place and has a leading one. */
  function Prepared(rows: seq<Row>, p: nat, c: nat): (r: seq<Row>)
    requires p < |rows| && c < |rows| && Divisible(rows[c])
    ensures |r| == |rows| && |r[p].coefficients| == |rows[c].coefficients| && |r[p].data| == |rows[c].data|
  {
    Normalized(Swap(rows, p, c), p)
  }

  /** The work of the pivot loop from pivot p on. */
  function Cost(rows: seq<Row>, p: nat): nat
    requires p <= |rows|
    decreases |rows| - p
  {
    var c := Candidate(rows, p, |rows|);
    if c.None? || !Divisible(rows[c.value]) then 0
    else PivotCost(rows, p, c.value) + Cost(Pivoted(rows, p, c.value), p + 1)
  }

  /** The matrix in which the pivot loop ends. */
  function Reduced(rows: seq<Row>, p: nat): (r: seq<Row>)
    requires p <= |rows|
    ensures |r| == |rows|
    decreases |rows| - p
  {
    var c := Candidate(rows, p, |rows|);
    if c.None? || !Divisible(rows[c.value]) then rows
    else Reduced(Pivoted(rows, p, c.value), p + 1)
  }

  /** The most coefficients that any copy of a pivot row holds. */
  function WidestPivot(rows: seq<Row>, p: nat): nat
    requires p <= |rows|
    decreases |rows| - p
  {
    var c := Candidate(rows, p, |rows|);
    if c.None? || !Divisible(rows[c.value]) then 0
    else Max(|rows[c.value].coefficients|, WidestPivot(Pivoted(rows, p, c.value), p + 1))
  }

  lemma {:induction false} ClearCostGrows(rows: seq<Row>, pivot: nat, m: nat, n: nat)
    requires pivot < |rows| && rows[pivot].coefficients != [] && m <= n <= |rows|
    ensures ClearCost(rows, pivot, m) <= ClearCost(rows, pivot, n)
    decreases n
  {
    if m < n {
      ClearCostGrows(rows, pivot, m, n - 1);
    }
  }

  lemma {:induction false} ClearCostBound(rows: seq<Row>, pivot: nat, n: nat)
    requires pivot < |rows| && rows[pivot].coefficients != [] && n <= |rows|
    ensures ClearCost(rows, pivot, n) <= (if pivot < n then n - 1 else n) * Steps(rows[pivot])
  {
    hide Coef;
    if n > 0 {
      ClearCostBound(rows, pivot, n - 1);
      var k, s := if pivot < n - 1 then n - 2 else n - 1, Steps(rows[pivot]);
      assert (k + 1) * s == k * s + s;
    }
  }

  lemma Product(a: nat, b: nat, s: nat, t: nat)
    requires a <= b && s <= t
    ensures a * s <= b * t
  {
    assert a * s <= b * s <= b * t;
  }

  // ----- what every pivot step keeps

  lemma PreparedNormal(rows: seq<Row>, p: nat, c: nat)
    requires AllNormal(rows) && p < |rows| && c < |rows| && Divisible(rows[c])
    ensures AllNormal(Prepared(rows, p, c)) && Prepared(rows, p, c)[p].coefficients[0].1 == 1
  {
    hide Normal, Mul, Inv, ScaleTerms;
    var a := Swap(rows, p, c);
    assert a[p] == rows[c];
    ScaledNormal(rows[c].coefficients, Inv(rows[c].coefficients[0].1));
    LeadsWithOne(rows[c]);
  }

  lemma LeadsWithOne(row: Row)
    requires Divisible(row)
    ensures Scaled(row, Inv(row.coefficients[0].1)).coefficients[0].1 == 1
  {
    hide Mul, Inv;
    MulCommutes(row.coefficients[0].1, Inv(row.coefficients[0].1));
  }

  lemma PivotedNormal(rows: seq<Row>, p: nat, c: nat)
    requires AllNormal(rows) && p < |rows| && c < |rows| && Divisible(rows[c])
    ensures AllNormal(Pivoted(rows, p, c))
  {
    PreparedNormal(rows, p, c);
    var a := Prepared(rows, p, c);
    hide Normal, Clear, Prepared, Normalized, Swap;
    assert a[p].coefficients != [];
    forall i | 0 <= i < |a| ensures Normal(Cleared(a, p)[i].coefficients) {
      if i != p {
        ClearFacts(a[i], a[p], 0);
      }
    }
    PivotedIs(rows, p, c);
  }

  lemma PivotedIs(rows: seq<Row>, p: nat, c: nat)
    requires p < |rows| && c < |rows| && Divisible(rows[c])
    ensures Prepared(rows, p, c)[p].coefficients != [] && Pivoted(rows, p, c) == Cleared(Prepared(rows, p, c), p)
  {
  }
}
