/** Gauss-Jordan elimination over sparse rows: `reduce` and its helpers (src/fec.rs). */
module Elimination {
  import opened Galois
  import opened Rows

  // ----- one pivot step, as functions on the matrix

  function Lead(row: Row): Id
    requires row.coefficients != []
  {
    row.coefficients[0].0
  }

  function Swap(rows: seq<Row>, p: nat, c: nat): seq<Row>
    requires p < |rows| && c < |rows|
  {
    rows[p := rows[c]][c := rows[p]]
  }

  /** Divides the pivot row by its leading coefficient. */
  function Normalized(rows: seq<Row>, p: nat): seq<Row>
    requires p < |rows| && rows[p].coefficients != [] && rows[p].coefficients[0].1 != 0
  {
    rows[p := Scaled(rows[p], Inv(rows[p].coefficients[0].1))]
  }

  /** Removes the source row's leading symbol from a row, if it occurs there. */
  function Clear(row: Row, source: Row): Row
    requires source.coefficients != []
  {
    var f := Coef(row.coefficients, Lead(source));
    if f == 0 then row else Combined(row, source, f)
  }

  function Cleared(rows: seq<Row>, p: nat): (r: seq<Row>)
    requires p < |rows| && rows[p].coefficients != []
    ensures |r| == |rows| && r[p] == rows[p]
  {
    seq(|rows|, i requires 0 <= i < |rows| => if i == p then rows[p] else Clear(rows[i], rows[p]))
  }

  // ----- what a pivot step keeps

  ghost predicate Equivalent(rows: seq<Row>, rows': seq<Row>) {
    forall x :: SatAll(rows, x) <==> SatAll(rows', x)
  }

  ghost predicate AllNormal(rows: seq<Row>) {
    forall i :: 0 <= i < |rows| ==> Normal(rows[i].coefficients)
  }

  function AllIds(rows: seq<Row>): set<Id> {
    set i, k | 0 <= i < |rows| && 0 <= k < |rows[i].coefficients| :: rows[i].coefficients[k].0
  }

  lemma SwapEquivalent(rows: seq<Row>, p: nat, c: nat)
    requires p < |rows| && c < |rows|
    ensures Equivalent(rows, Swap(rows, p, c))
  {
    var r := Swap(rows, p, c);
    forall x ensures SatAll(rows, x) <==> SatAll(r, x) {
      if SatAll(r, x) {
        forall i | 0 <= i < |rows| ensures Sat(rows[i], x) {
          assert rows[i] == r[if i == p then c else if i == c then p else i];
        }
      }
    }
  }

  lemma NormalizedEquivalent(rows: seq<Row>, p: nat)
    requires p < |rows| && rows[p].coefficients != [] && rows[p].coefficients[0].1 != 0
    ensures Equivalent(rows, Normalized(rows, p))
  {
    var f := Inv(rows[p].coefficients[0].1);
    var r := Normalized(rows, p);
    hide Scaled, Sat;
    forall x ensures SatAll(rows, x) <==> SatAll(r, x) {
      ScaledSat(rows[p], f, x);
      assert forall i :: 0 <= i < |rows| && i != p ==> r[i] == rows[i];
      if SatAll(r, x) { assert Sat(r[p], x); }
      if SatAll(rows, x) { assert Sat(rows[p], x); }
    }
  }

  lemma ClearedEquivalent(rows: seq<Row>, p: nat)
    requires p < |rows| && rows[p].coefficients != []
    ensures Equivalent(rows, Cleared(rows, p))
  {
    var r := Cleared(rows, p);
    hide Sat, Combined, Coef;
    forall x ensures SatAll(rows, x) <==> SatAll(r, x) {
      if Sat(rows[p], x) {
        forall i | 0 <= i < |rows| ensures Sat(rows[i], x) <==> Sat(r[i], x) {
          if i != p {
            var f := Coef(rows[i].coefficients, Lead(rows[p]));
            CombinedSat(rows[i], rows[p], f, x);
          }
        }
      } else {
        assert !Sat(r[p], x);
      }
    }
  }

  lemma EquivalentTransitive(a: seq<Row>, b: seq<Row>, c: seq<Row>)
    requires Equivalent(a, b) && Equivalent(b, c)
    ensures Equivalent(a, c)
  {
  }

  // ----- reduced row echelon form

  ghost predicate Above(id: Id, terms: Terms) {
    forall i :: 0 <= i < |terms| ==> id < terms[i].0
  }

  /** The first p rows are finished pivots, in rising order, each leading symbol occurring nowhere else. */
  ghost predicate Echelon(rows: seq<Row>, p: nat) {
    && p <= |rows|
    && AllNormal(rows)
    && (forall i :: 0 <= i < p ==> rows[i].coefficients != [] && rows[i].coefficients[0].1 == 1)
    && (forall i, k :: 0 <= i < p && i < k < |rows| ==> Above(rows[i].coefficients[0].0, rows[k].coefficients))
    && (forall i, k :: 0 <= i < p && 0 <= k < |rows| && i != k ==>
          Coef(rows[k].coefficients, rows[i].coefficients[0].0) == 0)
  }

  ghost predicate IsCandidate(rows: seq<Row>, p: nat, c: nat) {
    && p <= c < |rows| && rows[c].coefficients != []
    && forall i :: p <= i < |rows| && rows[i].coefficients != [] ==> Lead(rows[c]) <= Lead(rows[i])
  }

  /** As `Echelon(rows, p)`, with the next pivot row in place: lowest leading symbol, leading one. */
  ghost predicate Ready(rows: seq<Row>, p: nat) {
    && Echelon(rows, p) && IsCandidate(rows, p, p) && rows[p].coefficients[0].1 == 1
  }

  lemma SwapEchelon(rows: seq<Row>, p: nat, c: nat)
    requires Echelon(rows, p) && IsCandidate(rows, p, c)
    ensures Echelon(Swap(rows, p, c), p) && IsCandidate(Swap(rows, p, c), p, p)
  {
    hide Coef, Normal;
    var r := Swap(rows, p, c);
    forall k | 0 <= k < |r|
      ensures exists o :: 0 <= o < |rows| && r[k] == rows[o] && (k < p ==> o == k) && (k >= p ==> o >= p)
    {
      var o := if k == p then c else if k == c then p else k;
      assert r[k] == rows[o];
    }
  }

  lemma NormalizedReady(rows: seq<Row>, p: nat)
    requires Echelon(rows, p) && IsCandidate(rows, p, p)
    ensures Normal(rows[p].coefficients)
    ensures Ready(Normalized(rows, p), p)
  {
    var terms := rows[p].coefficients;
    var f := Inv(terms[0].1);
    var s := ScaleTerms(terms, f);
    assert s[0] == (terms[0].0, 1) && forall i :: 0 <= i < |s| ==> s[i].0 == terms[i].0 by {
      hide Mul;
    }
    var r := Normalized(rows, p);
    hide Mul, ScaleTerms, Inv;
    ScaledNormal(terms, f);
    assert r[p].coefficients == s;
    hide Coef, Normal;
    forall i | 0 <= i < p ensures Coef(s, rows[i].coefficients[0].0) == 0 {
      CoefNonzero(terms, rows[i].coefficients[0].0);
      CoefNonzero(s, rows[i].coefficients[0].0);
    }
  }

  lemma ClearFacts(row: Row, source: Row, k: Id)
    requires Normal(row.coefficients) && Normal(source.coefficients)
    requires source.coefficients != [] && source.coefficients[0].1 == 1
    ensures Normal(Clear(row, source).coefficients)
    ensures Ids(Clear(row, source).coefficients) <= Ids(row.coefficients) + Ids(source.coefficients)
    ensures Coef(Clear(row, source).coefficients, Lead(source)) == 0
    ensures Coef(source.coefficients, k) == 0 ==> Coef(Clear(row, source).coefficients, k) == Coef(row.coefficients, k)
  {
    hide Add, Mul, Coef, Normal, AddTerms, AddBytes;
    var f := Coef(row.coefficients, Lead(source));
    if f != 0 {
      assert Normal(source.coefficients) ==> Nonzero(source.coefficients) by { NormalNonzero(source.coefficients); }
      AddTermsNormal(row.coefficients, source.coefficients, f);
      AddTermsCoef(row.coefficients, source.coefficients, f, k);
      AddTermsCoef(row.coefficients, source.coefficients, f, Lead(source));
      assert Coef(source.coefficients, Lead(source)) == 1 by {
        NormalNonzero(source.coefficients);
        CoefAt(source.coefficients, 0);
      }
      MulUnits(f); AddUnits(f); AddUnits(Coef(row.coefficients, k));
    }
  }

  lemma NormalNonzero(terms: Terms)
    requires Normal(terms)
    ensures Sorted(terms) && Nonzero(terms)
  {
  }

  lemma AboveIds(id: Id, terms: Terms)
    ensures Above(id, terms) <==> forall k :: k in Ids(terms) ==> id < k
  {
    if forall k :: k in Ids(terms) ==> id < k {
      forall i | 0 <= i < |terms| ensures id < terms[i].0 {
        assert terms[i].0 in Ids(terms);
      }
    }
  }

  // A normal list all of whose ids are at least `id`, with `id` present, starts with `id`.
  lemma FirstIs(terms: Terms, id: Id)
    requires Normal(terms) && Coef(terms, id) != 0
    requires forall k :: k in Ids(terms) ==> id <= k
    ensures terms != [] && terms[0] == (id, Coef(terms, id))
  {
    CoefNonzero(terms, id);
    var i :| 0 <= i < |terms| && terms[i].0 == id;
    assert terms[0].0 in Ids(terms);
    CoefAt(terms, 0);
  }

  // A row above the pivot keeps its own leading one.
  lemma ClearAbove(rows: seq<Row>, p: nat, i: nat)
    requires Ready(rows, p) && i < p
    ensures Cleared(rows, p)[i].coefficients != []
    ensures Cleared(rows, p)[i].coefficients[0] == rows[i].coefficients[0]
  {
    hide Combined;
    var source := rows[p];
    var terms, id := rows[i].coefficients, rows[i].coefficients[0].0;
    ClearFacts(rows[i], source, id);
    CoefAt(terms, 0);
    AboveIds(id, source.coefficients);
    TailNormal(terms);
    FirstIs(Clear(rows[i], source).coefficients, id);
  }

  // A row other than the pivot stays above every earlier leading symbol it was above.
  lemma ClearStaysAbove(rows: seq<Row>, p: nat, i: nat, k: nat)
    requires Ready(rows, p) && i < p && i < k < |rows|
    ensures Above(rows[i].coefficients[0].0, Cleared(rows, p)[k].coefficients)
  {
    hide Combined, Coef;
    var id := rows[i].coefficients[0].0;
    if k != p {
      ClearFacts(rows[k], rows[p], id);
      AboveIds(id, rows[p].coefficients);
      AboveIds(id, rows[k].coefficients);
      AboveIds(id, Clear(rows[k], rows[p]).coefficients);
    }
  }

  // A row below the pivot ends up strictly above the pivot symbol.
  lemma ClearBelow(rows: seq<Row>, p: nat, k: nat)
    requires Ready(rows, p) && p < k < |rows|
    ensures Above(Lead(rows[p]), Cleared(rows, p)[k].coefficients)
  {
    hide Combined, Coef;
    var id := Lead(rows[p]);
    var r := Clear(rows[k], rows[p]).coefficients;
    ClearFacts(rows[k], rows[p], id);
    CoefNonzero(r, id);
    TailNormal(rows[p].coefficients);
    if rows[k].coefficients != [] {
      TailNormal(rows[k].coefficients);
    }
    AboveIds(id, r);
  }

  lemma ClearedEchelon(rows: seq<Row>, p: nat)
    requires Ready(rows, p)
    ensures Echelon(Cleared(rows, p), p + 1)
  {
    var r := Cleared(rows, p);
    var source := rows[p];
    hide Combined, Coef, Normal, Above;
    forall k | 0 <= k < |r| ensures Normal(r[k].coefficients) {
      if k != p { ClearFacts(rows[k], source, 0); }
    }
    forall i | 0 <= i < p ensures r[i].coefficients != [] && r[i].coefficients[0] == rows[i].coefficients[0] {
      ClearAbove(rows, p, i);
    }
    forall i, k | 0 <= i < p + 1 && i < k < |r| ensures Above(r[i].coefficients[0].0, r[k].coefficients) {
      if i < p { ClearStaysAbove(rows, p, i, k); } else { ClearBelow(rows, p, k); }
    }
    forall i, k | 0 <= i < p + 1 && 0 <= k < |r| && i != k
      ensures Coef(r[k].coefficients, r[i].coefficients[0].0) == 0
    {
      if k != p { ClearFacts(rows[k], source, r[i].coefficients[0].0); }
    }
  }

  // ----- bounds that elimination keeps

  /** No coefficient list mentions a symbol outside `ids`, and no data outgrows `max`. */
  ghost predicate Within(rows: seq<Row>, ids: set<Id>, max: nat) {
    forall i :: 0 <= i < |rows| ==> Ids(rows[i].coefficients) <= ids && |rows[i].data| <= max
  }

  /** Each row's data is at least as long as every symbol the row mentions. */
  ghost predicate Covers(rows: seq<Row>, x: Assignment) {
    forall i, id :: 0 <= i < |rows| && id in Ids(rows[i].coefficients) && id in x ==> |x[id]| <= |rows[i].data|
  }

  ghost predicate KeepsCovers(rows: seq<Row>, rows': seq<Row>) {
    forall x :: Covers(rows, x) ==> Covers(rows', x)
  }

  function Pivoted(rows: seq<Row>, p: nat, c: nat): (r: seq<Row>)
    requires p < |rows| && c < |rows| && rows[c].coefficients != [] && rows[c].coefficients[0].1 != 0
    ensures |r| == |rows|
  {
    Cleared(Normalized(Swap(rows, p, c), p), p)
  }

  lemma PivotedEchelon(rows: seq<Row>, p: nat, c: nat)
    requires Echelon(rows, p) && IsCandidate(rows, p, c)
    ensures Normal(rows[c].coefficients)
    ensures Echelon(Pivoted(rows, p, c), p + 1)
  {
    hide Coef, Cleared, Normalized, Echelon;
    assert Normal(rows[c].coefficients) by { EchelonNormal(rows, p, c); }
    SwapEchelon(rows, p, c);
    NormalizedReady(Swap(rows, p, c), p);
    ClearedEchelon(Normalized(Swap(rows, p, c), p), p);
  }

  lemma EchelonNormal(rows: seq<Row>, p: nat, c: nat)
    requires Echelon(rows, p) && c < |rows|
    ensures Normal(rows[c].coefficients)
  {
  }

  lemma PivotedEquivalent(rows: seq<Row>, p: nat, c: nat)
    requires p < |rows| && c < |rows| && rows[c].coefficients != [] && rows[c].coefficients[0].1 != 0
    ensures Equivalent(rows, Pivoted(rows, p, c))
  {
    hide Equivalent;
    var a := Swap(rows, p, c);
    assert a[p] == rows[c];
    var b := Normalized(a, p);
    SwapEquivalent(rows, p, c);
    NormalizedEquivalent(a, p);
    ClearedEquivalent(b, p);
    EquivalentTransitive(rows, a, b);
    EquivalentTransitive(rows, b, Cleared(b, p));
  }

  // Each row after a pivot step draws its symbols and its length from two rows before it.
  lemma PivotedSources(rows: seq<Row>, p: nat, c: nat, i: nat) returns (o: nat)
    requires AllNormal(rows)
    requires p < |rows| && c < |rows| && rows[c].coefficients != [] && rows[c].coefficients[0].1 != 0
    requires i < |rows|
    ensures o < |rows|
    ensures Ids(Pivoted(rows, p, c)[i].coefficients) <= Ids(rows[o].coefficients) + Ids(rows[c].coefficients)
    ensures |Pivoted(rows, p, c)[i].data| == |rows[o].data|
         || |Pivoted(rows, p, c)[i].data| == Max(|rows[o].data|, |rows[c].data|)
    ensures Ids(Pivoted(rows, p, c)[i].coefficients) <= Ids(rows[o].coefficients)
         || |Pivoted(rows, p, c)[i].data| == Max(|rows[o].data|, |rows[c].data|)
  {
    o := if i == p then c else if i == c then p else i;
    var a := Swap(rows, p, c);
    var b := Normalized(a, p);
    assert a[p] == rows[c] && a[i] == rows[o];
    hide Mul, Normal;
    assert Normal(rows[c].coefficients) && Normal(rows[o].coefficients);
    ScaledNormal(rows[c].coefficients, Inv(rows[c].coefficients[0].1));
    if i != p {
      hide Inv, Coef, AddTerms;
      assert b[i] == rows[o];
      var f := Coef(rows[o].coefficients, Lead(b[p]));
      if f != 0 {
        NormalNonzero(b[p].coefficients);
        AddTermsNormal(rows[o].coefficients, b[p].coefficients, f);
      }
    }
  }

  lemma PivotedBounds(rows: seq<Row>, p: nat, c: nat, ids: set<Id>, max: nat)
    requires AllNormal(rows) && Within(rows, ids, max)
    requires p < |rows| && c < |rows| && rows[c].coefficients != [] && rows[c].coefficients[0].1 != 0
    ensures Within(Pivoted(rows, p, c), ids, max)
    ensures KeepsCovers(rows, Pivoted(rows, p, c))
  {
    hide Pivoted, AllNormal, Ids;
    var r := Pivoted(rows, p, c);
    forall i | 0 <= i < |r| ensures Ids(r[i].coefficients) <= ids && |r[i].data| <= max {
      var o := PivotedSources(rows, p, c, i);
    }
    forall x | Covers(rows, x) ensures Covers(r, x) {
      forall i, id | 0 <= i < |r| && id in Ids(r[i].coefficients) && id in x ensures |x[id]| <= |r[i].data| {
        var o := PivotedSources(rows, p, c, i);
        assert id in Ids(rows[o].coefficients) ==> |x[id]| <= |rows[o].data|;
        assert id in Ids(rows[c].coefficients) ==> |x[id]| <= |rows[c].data|;
      }
    }
  }
}
