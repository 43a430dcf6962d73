/** One decoding step on values: reduce, strip, validate, keep (src/fec.rs). */
module Decoding {
  import opened Results
  import opened Galois
  import opened Rows
  import opened Elimination
  import opened Sets
  import opened Course
  import opened Storage
  import opened Vectors
  import opened Reduction
  import opened Determination
  import opened Repair
  import opened Substitution
  import opened SourceCodec
  import opened Harvest

  // The row that reports a value: its only symbol occurs in no other row.
  lemma ReportedRow(rows: seq<Row>, r: seq<Row>, p: nat, max: nat, k: nat) returns (i: nat)
    requires Solved(r, p) && Within(r, AllIds(rows), max) && k < |Reported(r)|
    ensures i < |r| && Ids(r[i].coefficients) == {Reported(r)[k].0} && r[i].data == Reported(r)[k].1
    ensures Reported(r)[k].0 in AllIds(rows) && Reported(r)[k].0 !in AllIds(Kept(r)) && |Reported(r)[k].1| <= max
  {
    hide Kept, Reported, Above, Normal;
    i := ReportedFrom(r, k);
    var id := Reported(r)[k].0;
    assert r[i].coefficients == [(id, r[i].coefficients[0].1)];
    assert id in Ids(r[i].coefficients);
    IdsOfAll(Kept(r));
    if id in AllIds(Kept(r)) {
      var c :| 0 <= c < |Kept(r)| && id in Ids(Kept(r)[c].coefficients);
      var o := KeptFrom(r, c);
      CoefNonzero(r[o].coefficients, id);
    }
  }

  lemma HarvestedShape(rows: seq<Row>, r: seq<Row>, p: nat, max: nat, recovered: seq<Recovered>)
    requires Solved(r, p) && Within(r, AllIds(rows), max) && |recovered| == |Reported(r)|
    requires forall k :: 0 <= k < |recovered| ==> Strips(Reported(r)[k], max, recovered[k])
    ensures forall k :: 0 <= k < |recovered| ==>
      && recovered[k].symbolId == Reported(r)[k].0
      && recovered[k].symbolId in AllIds(rows) && recovered[k].symbolId !in AllIds(Kept(r))
      && 0 < |recovered[k].bytes| == recovered[k].retained <= max
    ensures forall a, b :: 0 <= a < b < |recovered| ==> recovered[a].symbolId < recovered[b].symbolId
    ensures forall id :: IsRecovered(recovered, id) <==> IsReported(r, id)
  {
    hide Kept, Reported, Above, Normal, AllIds, Coef;
    forall k | 0 <= k < |recovered|
      ensures recovered[k].symbolId == Reported(r)[k].0
      ensures recovered[k].symbolId in AllIds(rows) && recovered[k].symbolId !in AllIds(Kept(r))
      ensures 0 < |recovered[k].bytes| == recovered[k].retained <= max
    {
      assert Strips(Reported(r)[k], max, recovered[k]);
      var i := ReportedRow(rows, r, p, max, k);
    }
    ReportedRises(r);
    forall id | IsRecovered(recovered, id) ensures IsReported(r, id) {
      var k :| 0 <= k < |recovered| && recovered[k].symbolId == id;
    }
    forall id | IsReported(r, id) ensures IsRecovered(recovered, id) {
      var k :| 0 <= k < |Reported(r)| && Reported(r)[k].0 == id;
      assert recovered[k].symbolId == id;
    }
  }

  lemma HarvestedMeaning(r: seq<Row>, p: nat, max: nat, recovered: seq<Recovered>, x: Assignment)
    requires Solved(r, p) && |recovered| == |Reported(r)|
    requires forall k :: 0 <= k < |recovered| ==> Strips(Reported(r)[k], max, recovered[k])
    ensures SatAll(r, x) <==> SatAll(Kept(r), x) && RecoveredAgree(x, recovered)
  {
    KeptAndReported(r, p, x);
    hide Kept, Reported, Strips, Agrees;
    forall k | 0 <= k < |recovered|
      ensures Agrees(x, Reported(r)[k].0, Reported(r)[k].1) <==> Agrees(x, recovered[k].symbolId, recovered[k].bytes)
    {
      StripsAgree(Reported(r)[k], max, recovered[k], x);
    }
  }

  // Under an explanation every reported value is the padded truth.
  lemma ReportedTruth(rows: seq<Row>, r: seq<Row>, p: nat, known: seq<KnownSource>, max: nat, x: Assignment, k: nat)
    requires Solved(r, p) && Within(r, AllIds(rows), max) && Equivalent(rows, r) && KeepsCovers(rows, r)
    requires Explain(x, rows, known, max) && k < |Reported(r)|
    ensures !Rejected(Reported(r)[k], known, max)
    ensures forall s :: Strips(Reported(r)[k], max, s) ==>
      s.symbolId == Reported(r)[k].0 && s.symbolId in x && s.bytes == x[s.symbolId]
  {
    hide Kept, Reported, Strips, Agrees, Undecodable, Genuine, AllIds, Within, Solved;
    var value := Reported(r)[k];
    var i := ReportedRow(rows, r, p, max, k);
    KeptAndReported(r, p, x);
    assert Agrees(x, value.0, value.1);
    assert value.0 in Ids(r[i].coefficients);
    assert |x[value.0]| <= |value.1|;
    StripsToTruth(x, max, value);
  }

  lemma HarvestedTruth(rows: seq<Row>, r: seq<Row>, p: nat, known: seq<KnownSource>, max: nat,
                       recovered: seq<Recovered>, x: Assignment)
    requires Solved(r, p) && Within(r, AllIds(rows), max) && Equivalent(rows, r) && KeepsCovers(rows, r)
    requires |recovered| == |Reported(r)|
    requires forall k :: 0 <= k < |recovered| ==> Strips(Reported(r)[k], max, recovered[k])
    requires Explain(x, rows, known, max)
    ensures Explain(x, Kept(r), known, max) && RecoveredTrue(x, recovered)
  {
    hide Kept, Reported, Strips, Agrees, Genuine, AllIds, Solved, Covers, SatAll;
    KeptAndReported(r, p, x);
    KeptBounds(r, AllIds(rows), max);
    hide Within;
    forall k | 0 <= k < |recovered|
      ensures recovered[k].symbolId in x && recovered[k].bytes == x[recovered[k].symbolId]
    {
      ReportedTruth(rows, r, p, known, max, x, k);
    }
  }

  /** The most storage beside the matrix: a copy of a pivot row, later the values and what they are stripped to. */
  function SettleBytes(rows: seq<Row>, items: seq<Recovered>, max: nat): nat {
    Max(RowBytes(WidestPivot(rows, 0), max), HarvestBytes(|rows|, items, max))
  }

  /** A bound for it: what `scratch_memory_bytes` sets aside. */
  function SpareBytes(n: nat, columns: nat, max: nat): nat {
    RowBytes(columns, max) + n * (2 * max + SIZE_VALUE + SIZE_RECOVERED)
  }

  /**
   * The common tail of `add_source` and `add_repair`, for a matrix with room for `columns` coefficients in a row.
   * `peak` is the most storage that it has in use beside the matrix.
   */
  method Settle(rows: seq<Row>, known: seq<KnownSource>, columns: nat, max: nat, budget: nat)
    returns (res: Result<Outcome, FecError>, spent: nat, ghost peak: nat)
    requires AllNormal(rows) && |AllIds(rows)| <= columns
    requires forall i :: 0 <= i < |rows| ==> |rows[i].data| <= max
    ensures res == Err(WorkBudget) <==> Cost(rows, 0) > budget
    ensures res != Err(WorkBudget) ==> spent == Cost(rows, 0)
    ensures res.Ok? ==> Harvested(rows, known, max, res.value)
    ensures res.Err? ==> res.error == WorkBudget || res.error == ContradictoryRepair
    ensures res == Err(ContradictoryRepair) ==> forall x :: !Explain(x, rows, known, max)
    ensures res.Ok? ==> |res.value.recovered| <= |rows|
    ensures peak <= SpareBytes(|rows|, columns, max)
    ensures res.Ok? ==> peak == SettleBytes(rows, res.value.recovered, max)
  {
    hide Kept, Strips, Rejected, Equivalent, Within, Covers, KeepsCovers, Determined, Solved, Cost, Reduced;
    hide WidestPivot, AllIds, AllNormal;
    hide Explain, Harvested, HarvestBytes, SpareBytes, RowBytes;
    PivotsFitAll(rows, columns, max);
    var reduced, r, p, work, widest := Reduce(rows, columns, max, budget);
    spent, peak := work, RowBytes(widest, max);
    PivotSpare(|rows|, widest, columns, max);
    if reduced.Err? {
      forall x | Explain(x, rows, known, max) ensures SatAll(rows, x) {
        ExplainSat(x, rows, known, max);
      }
      return Err(reduced.error), spent, peak;
    }
    var canonical := Canonical(reduced.value, known, max);
    if canonical.Err? {
      forall x ensures !Explain(x, rows, known, max) {
        if Explain(x, rows, known, max) {
          var k :| 0 <= k < |reduced.value| && Rejected(reduced.value[k], known, max);
          ReportedTruth(rows, r, p, known, max, x, k);
        }
      }
      ghost var k := |reduced.value|;
      peak := Max(peak, |rows| * SIZE_VALUE + k * (2 * max + SIZE_RECOVERED));
      ValuesSpare(|rows|, k, columns, max);
      return Err(ContradictoryRepair), spent, peak;
    }
    var out := Outcome(canonical.value, Kept(r));
    ProveHarvested(rows, r, p, known, max, out);
    peak := Max(RowBytes(WidestPivot(rows, 0), max), HarvestBytes(|rows|, canonical.value, max));
    HarvestSpare(rows, known, out, columns, max);
    return Ok(out), spent, peak;
  }

  lemma ExplainSat(x: Assignment, rows: seq<Row>, known: seq<KnownSource>, max: nat)
    requires Explain(x, rows, known, max)
    ensures SatAll(rows, x)
  {
  }

  lemma PivotsFitAll(rows: seq<Row>, columns: nat, max: nat)
    requires AllNormal(rows) && |AllIds(rows)| <= columns
    requires forall i :: 0 <= i < |rows| ==> |rows[i].data| <= max
    ensures WidestPivot(rows, 0) <= columns
  {
    StartsWithin(rows, max);
    PivotsFit(rows, 0, AllIds(rows), columns, max);
  }

  lemma PivotSpare(n: nat, widest: nat, columns: nat, max: nat)
    requires widest <= columns
    ensures RowBytes(widest, max) <= RowBytes(columns, max) <= SpareBytes(n, columns, max)
  {
  }

  lemma ValuesSpare(n: nat, k: nat, columns: nat, max: nat)
    requires k <= n
    ensures n * SIZE_VALUE + k * (2 * max + SIZE_RECOVERED) <= SpareBytes(n, columns, max)
  {
    Product(k, n, 2 * max + SIZE_RECOVERED, 2 * max + SIZE_RECOVERED);
    assert n * (2 * max + SIZE_VALUE + SIZE_RECOVERED) == n * SIZE_VALUE + n * (2 * max + SIZE_RECOVERED);
  }

  lemma HarvestSpare(rows: seq<Row>, known: seq<KnownSource>, out: Outcome, columns: nat, max: nat)
    requires Harvested(rows, known, max, out) && |out.recovered| <= |rows| && WidestPivot(rows, 0) <= columns
    ensures SettleBytes(rows, out.recovered, max) <= SpareBytes(|rows|, columns, max)
  {
    hide Harvested, HarvestBytes, SpareBytes, RowBytes, WidestPivot;
    var items, n := out.recovered, |rows|;
    HarvestedSizes(rows, known, out, max);
    RecoveredFits(items, max);
    HarvestSum(n, items, max);
    ValuesSpare(n, |items|, columns, max);
    PivotSpare(n, WidestPivot(rows, 0), columns, max);
  }

  lemma HarvestedSizes(rows: seq<Row>, known: seq<KnownSource>, out: Outcome, max: nat)
    requires Harvested(rows, known, max, out)
    ensures forall k :: 0 <= k < |out.recovered| ==> out.recovered[k].retained <= max
  {
    hide Pending, Within, AllIds, IsRecovered, Determined, SatAll, RecoveredAgree, Explain, RecoveredTrue;
  }

  lemma HarvestSum(n: nat, items: seq<Recovered>, max: nat)
    requires RecoveredBytes(items) <= |items| * max
    ensures HarvestBytes(n, items, max) <= n * SIZE_VALUE + |items| * (2 * max + SIZE_RECOVERED)
  {
    hide RecoveredBytes;
    assert |items| * (2 * max + SIZE_RECOVERED) == |items| * (max + SIZE_RECOVERED) + |items| * max;
  }

  lemma ProveHarvested(rows: seq<Row>, r: seq<Row>, p: nat, known: seq<KnownSource>, max: nat, out: Outcome)
    requires Solved(r, p) && Within(r, AllIds(rows), max) && Equivalent(rows, r) && KeepsCovers(rows, r)
    requires |r| == |rows| && out.rows == Kept(r) && |out.recovered| == |Reported(r)|
    requires forall k :: 0 <= k < |out.recovered| ==> Strips(Reported(r)[k], max, out.recovered[k])
    ensures Harvested(rows, known, max, out)
  {
    hide Kept, Reported, Strips, Solved, Determined, Explain, AllIds, RecoveredTrue, RecoveredAgree, SatAll, Pending;
    KeptPending(r, p);
    assert |Kept(r)| <= |r|;
    KeptBounds(r, AllIds(rows), max);
    hide Within;
    HarvestedShape(rows, r, p, max, out.recovered);
    forall id ensures IsRecovered(out.recovered, id) <==> Determined(rows, id) {
      ReportsExactlyDetermined(rows, r, p, id);
    }
    forall x ensures SatAll(rows, x) <==> SatAll(out.rows, x) && RecoveredAgree(x, out.recovered) {
      HarvestedMeaning(r, p, max, out.recovered, x);
    }
    forall x | Explain(x, rows, known, max)
      ensures Explain(x, out.rows, known, max) && RecoveredTrue(x, out.recovered)
    {
      HarvestedTruth(rows, r, p, known, max, out.recovered, x);
    }
  }

  // ----- a source arrives

  /** src/fec.rs, `matrix_clone_work`. */
  function CloneWork(rows: seq<Row>): nat {
    if rows == [] then 0
    else CloneWork(rows[..|rows| - 1]) + |rows[|rows| - 1].coefficients| + |rows[|rows| - 1].data|
  }

  lemma SubstitutedExplain(x: Assignment, rows: seq<Row>, known: seq<KnownSource>, max: nat, id: Id, source: Bytes)
    requires AllNormal(rows) && Explain(x, rows, known, max) && id in x && x[id] == source
    ensures Explain(x, SubstitutedAll(rows, id, source), known, max)
  {
    hide Genuine, KnownIn, SatAll, Covers, AllIds, SubstitutedAll, AllNormal;
    SubstitutedAllSat(rows, id, source, x);
    SubstitutedCovers(rows, id, source, x);
    SubstitutedAllFacts(rows, id, source);
  }

  /**
   * src/fec.rs, `clone_rows_bounded`: a matrix with room for `additional` more rows, and for `columns` and `max` in
   * each.
   */
  method CloneRows(rows: seq<Row>, additional: nat, columns: nat, max: nat) returns (cloned: seq<Row>)
    requires forall i :: 0 <= i < |rows| ==> |rows[i].coefficients| <= columns && |rows[i].data| <= max
    ensures cloned == rows
  {
    cloned := [];
    var i := 0;
    while i < |rows|
      invariant 0 <= i <= |rows| && cloned == rows[..i]
    {
      var coefficients := Copy(rows[i].coefficients, columns);
      var data := Copy(rows[i].data, max);
      cloned := Push(cloned, Row(coefficients, data), |rows| + additional);
      i := i + 1;
    }
  }

  lemma {:induction false} CoefficientsCounted(rows: seq<Row>)
    ensures forall i :: 0 <= i < |rows| ==> |rows[i].coefficients| <= CoefficientCount(rows)
  {
    if rows != [] {
      CoefficientsCounted(rows[..|rows| - 1]);
    }
  }

  /** The work of a source that arrives on a matrix. */
  function SourceWork(rows: seq<Row>, id: Id, source: Bytes): nat {
    CloneWork(rows) + SubstitutionCost(rows, id, |source|) + Cost(SubstitutedAll(rows, id, source), 0)
  }

  /** src/fec.rs, `add_source` on a matrix with rows: clone, substitute, then reduce within what work is left. */
  method ResolveSource(rows: seq<Row>, known: seq<KnownSource>, id: Id, source: Bytes, columns: nat, max: nat,
                       budget: nat)
    returns (res: Result<Outcome, FecError>, spent: nat, ghost peak: nat)
    requires AllNormal(rows) && CloneWork(rows) <= budget && columns == CoefficientCount(rows)
    requires forall i :: 0 <= i < |rows| ==> |rows[i].data| <= max
    ensures res.Ok? ==> Harvested(SubstitutedAll(rows, id, source), known, max, res.value)
    ensures res.Ok? ==> |res.value.recovered| <= |rows|
    ensures res.Ok? ==> spent == SourceWork(rows, id, source) <= budget
    ensures res == Err(WorkBudget) ==> SourceWork(rows, id, source) > budget
    ensures res.Err? ==> res.error in {InvalidSymbolSize, WorkBudget, ContradictoryRepair}
    ensures res.Err? && res.error != WorkBudget ==>
      forall x :: Explain(x, rows, known, max) && id in x ==> x[id] != source
    ensures peak <= |rows| * RowBytes(columns, max) + SpareBytes(|rows|, columns, max)
    ensures res.Ok? ==>
      peak == |rows| * RowBytes(columns, max) + SettleBytes(SubstitutedAll(rows, id, source), res.value.recovered, max)
  {
    hide Harvested, SubstitutedAll, Explain, AllIds, AllNormal, Cost, CloneWork, SubstitutionCost, CoefficientCount;
    hide RowBytes;
    hide SettleBytes, SpareBytes, TooShort;
    CoefficientsCounted(rows);
    var cloned := CloneRows(rows, 0, columns, max);
    peak := |rows| * RowBytes(columns, max);
    var substituted, total := SubstituteSource(cloned, id, source, CloneWork(rows), budget);
    spent := total;
    if substituted.Err? {
      forall x | Explain(x, rows, known, max) && id in x ensures substituted.error != WorkBudget ==> x[id] != source {
        if TooShort(rows, id, |source|) { ShortIsFalse(x, rows, known, max, id); }
      }
      return Err(substituted.error), spent, peak;
    }
    SubstitutedAllFacts(rows, id, source);
    SubstitutedColumns(rows, id, source);
    ghost var more;
    var settled, work;
    settled, work, more := Settle(substituted.value, known, columns, max, budget - total);
    spent, peak := total + work, peak + more;
    if settled.Err? {
      forall x | Explain(x, rows, known, max) && id in x && x[id] == source
        ensures Explain(x, substituted.value, known, max)
      {
        SubstitutedExplain(x, rows, known, max, id, source);
      }
      return Err(settled.error), spent, peak;
    }
    return Ok(settled.value), spent, peak;
  }

  lemma ShortIsFalse(x: Assignment, rows: seq<Row>, known: seq<KnownSource>, max: nat, id: Id)
    requires Explain(x, rows, known, max) && id in x
    ensures !TooShort(rows, id, |x[id]|)
  {
    hide Genuine, KnownIn, SatAll, AllIds;
  }

  lemma SubstitutedColumns(rows: seq<Row>, id: Id, source: Bytes)
    requires AllNormal(rows)
    ensures |AllIds(SubstitutedAll(rows, id, source))| <= CoefficientCount(rows)
  {
    hide AllIds, SubstitutedAll, CoefficientCount, AllNormal;
    SubstitutedAllFacts(rows, id, source);
    ColumnsSuffice(rows);
    SubsetSize(AllIds(SubstitutedAll(rows, id, source)), AllIds(rows));
  }

  // ----- a repair arrives

  ghost predicate RowOfRepair(row: Row, known: seq<KnownSource>, first: Id, span: nat, repairId: Id, seed: Id,
                              coded: Bytes)
  {
    && Normal(row.coefficients) && |row.data| == |coded| && |row.coefficients| <= span
    && (forall id :: id in Ids(row.coefficients) ==>
          Lookup(known, id).None? && exists i :: 0 <= i < span && id == SymbolId(first, i))
    && forall x :: KnownAgree(known, x) ==>
          (Sat(row, x) <==> Sat(Row(RepairTerms(first, span, repairId, seed), coded), x))
  }

  // A genuine repair's row joins the equations that x explains.
  lemma RepairExplain(x: Assignment, rows: seq<Row>, row: Row, known: seq<KnownSource>, max: nat, first: Id, span: nat,
                      repairId: Id, seed: Id, coded: Bytes)
    requires Explain(x, rows, known, max) && GenuineRepair(x, first, span, repairId, seed, coded)
    requires RowOfRepair(row, known, first, span, repairId, seed, coded)
    ensures Explain(x, rows + [row], known, max)
  {
    hide Genuine, RepairTerms, Dot, Normal, Lookup;
    var all := rows + [row];
    assert KnownAgree(known, x);
    assert Sat(row, x) by {
      assert Sat(Row(RepairTerms(first, span, repairId, seed), coded), x);
    }
    hide Sat, KnownAgree, At;
    forall i | 0 <= i < |all| ensures Sat(all[i], x) {
      if i < |rows| { assert all[i] == rows[i]; }
    }
    forall id | id in Ids(row.coefficients) ensures id in x && |x[id]| <= |coded| {
      var i :| 0 <= i < span && id == SymbolId(first, i);
    }
    AppendCovers(x, rows, row);
  }

  lemma AppendCovers(x: Assignment, rows: seq<Row>, row: Row)
    requires Covers(rows, x) && AllIds(rows) <= x.Keys
    requires forall id :: id in Ids(row.coefficients) ==> id in x && |x[id]| <= |row.data|
    ensures Covers(rows + [row], x) && AllIds(rows + [row]) <= x.Keys
  {
    var all := rows + [row];
    forall i, id | 0 <= i < |all| && id in Ids(all[i].coefficients) && id in x ensures |x[id]| <= |all[i].data| {
      if i < |rows| { assert all[i] == rows[i]; }
    }
    IdsOfAll(rows);
    IdsOfAll(all);
    forall id | id in AllIds(all) ensures id in x {
      var i :| 0 <= i < |all| && id in Ids(all[i].coefficients);
      if i < |rows| {
        assert all[i] == rows[i];
        assert id in AllIds(rows);
      }
    }
  }

  lemma RedundantSat(rows: seq<Row>, row: Row, x: Assignment)
    requires row.coefficients == [] && AllZero(row.data)
    ensures SatAll(rows + [row], x) <==> SatAll(rows, x)
    ensures Covers(rows + [row], x) ==> Covers(rows, x)
  {
    var all := rows + [row];
    EmptySat(row, x);
    assert forall i :: 0 <= i < |rows| ==> all[i] == rows[i];
    hide Sat;
    if SatAll(all, x) {
      forall i | 0 <= i < |rows| ensures Sat(rows[i], x) {
        assert Sat(all[i], x);
      }
    }
    if Covers(all, x) {
      forall i, id | 0 <= i < |rows| && id in Ids(rows[i].coefficients) && id in x ensures |x[id]| <= |rows[i].data| {
        assert id in Ids(all[i].coefficients);
      }
    }
  }

  lemma RedundantIds(rows: seq<Row>, row: Row)
    requires row.coefficients == []
    ensures AllIds(rows + [row]) == AllIds(rows)
  {
    var all := rows + [row];
    assert forall i :: 0 <= i < |rows| ==> all[i] == rows[i];
    IdsOfAll(rows);
    IdsOfAll(all);
    assert Ids(row.coefficients) == {};
    forall id | id in AllIds(rows) ensures id in AllIds(all) {
      var i :| 0 <= i < |rows| && id in Ids(rows[i].coefficients);
      assert id in Ids(all[i].coefficients);
    }
    forall id | id in AllIds(all) ensures id in AllIds(rows) {
      var i :| 0 <= i < |all| && id in Ids(all[i].coefficients);
      assert i < |rows|;
    }
  }

  lemma RedundantReportsNothing(rows: seq<Row>, row: Row, id: Id)
    requires Pending(rows) && row.coefficients == [] && AllZero(row.data)
    ensures !Determined(rows + [row], id)
  {
    var all := rows + [row];
    RedundantSolved(rows, row);
    if IsReported(all, id) {
      var k :| 0 <= k < |Reported(all)| && Reported(all)[k].0 == id;
      var i := ReportedFrom(all, k);
    }
    hide *;
    EquivalentSelf(all);
    ReportsExactlyDetermined(all, all, |rows|, id);
  }

  // A redundant repair changes nothing and determines nothing.
  lemma RedundantRow(rows: seq<Row>, row: Row, known: seq<KnownSource>, max: nat)
    requires Pending(rows) && Within(rows, AllIds(rows), max)
    requires row.coefficients == [] && AllZero(row.data)
    ensures Harvested(rows + [row], known, max, Outcome([], rows))
  {
    hide Pending, Within, AllIds, SatAll, Covers, Determined, Genuine, KnownIn;
    RedundantIds(rows, row);
    forall id ensures !Determined(rows + [row], id) {
      RedundantReportsNothing(rows, row, id);
    }
    forall x ensures SatAll(rows + [row], x) <==> SatAll(rows, x) {
      RedundantSat(rows, row, x);
    }
    forall x | Explain(x, rows + [row], known, max) ensures Explain(x, rows, known, max) {
      RedundantSat(rows, row, x);
    }
    assert forall x :: RecoveredAgree(x, []);
  }

  lemma EquivalentSelf(rows: seq<Row>)
    ensures Equivalent(rows, rows)
  {
  }

  lemma RedundantSolved(rows: seq<Row>, row: Row)
    requires Pending(rows) && row.coefficients == [] && AllZero(row.data)
    ensures Solved(rows + [row], |rows|)
  {
    hide Coef;
    var all := rows + [row];
    forall i | 0 <= i < |rows| ensures all[i] == rows[i] {}
    forall i | 0 <= i < |rows| ensures Coef(row.coefficients, rows[i].coefficients[0].0) == 0 {
      CoefAbsent(row.coefficients, rows[i].coefficients[0].0);
    }
  }

  /** The work of a repair that contributes `row`; one that contributes nothing is not reduced. */
  function RepairWork(rows: seq<Row>, known: seq<KnownSource>, first: Id, span: nat, coded: Bytes, row: Row): nat {
    CloneWork(rows) + |coded| + span + BuildCost(known, first, span)
      + if row.coefficients == [] then 0 else Cost(rows + [row], 0)
  }

  /** src/fec.rs, the matrix part of `add_repair`; `row` is the equation that the repair contributes. */
  method ResolveRepair(rows: seq<Row>, known: seq<KnownSource>, first: Id, span: nat, repairId: Id, seed: Id,
                       coded: Bytes, columns: nat, max: nat, budget: nat)
    returns (res: Result<Outcome, FecError>, redundant: bool, ghost row: Row, spent: nat, ghost peak: nat)
    requires Pending(rows) && Within(rows, AllIds(rows), max) && CloneWork(rows) + |coded| + span <= budget
    requires 1 <= span <= MAX_REPAIR_SPAN && 0 < |coded| <= max && columns == CoefficientCount(rows) + span
    ensures res.Ok? || row.coefficients != [] ==> RowOfRepair(row, known, first, span, repairId, seed, coded)
    ensures res.Ok? ==> Harvested(rows + [row], known, max, res.value)
    ensures res.Ok? ==> |res.value.recovered| <= |rows| + 1
    ensures res.Ok? ==> redundant == (row.coefficients == [])
    ensures res.Ok? ==> spent == RepairWork(rows, known, first, span, coded, row) <= budget
    ensures res == Err(WorkBudget) ==> RepairWork(rows, known, first, span, coded, row) > budget
    ensures res.Ok? && redundant ==> res.value == Outcome([], rows)
    ensures res.Err? ==> res.error in {InvalidSymbolSize, WorkBudget, ContradictoryRepair}
    ensures res.Err? && res.error != WorkBudget ==>
      forall x :: Explain(x, rows, known, max) ==> !GenuineRepair(x, first, span, repairId, seed, coded)
    ensures peak <= (|rows| + 1) * RowBytes(columns, max) + SpareBytes(|rows| + 1, columns, max)
    ensures res.Ok? && !redundant ==>
      peak == (|rows| + 1) * RowBytes(columns, max) + SettleBytes(rows + [row], res.value.recovered, max)
  {
    hide Harvested, Explain, AllIds, GenuineRepair, RowOfRepair, Sat, Normal, Pending, Within, Cost, CloneWork;
    hide BuildCost, RowBytes;
    hide SettleBytes, SpareBytes, CoefficientCount, TooLong;
    row, redundant := Row([], []), false;
    peak := RowBytes(columns, max);
    OneRow(|rows|, RowBytes(columns, max));
    var built, total := BuildRow(known, first, span, repairId, seed, coded, columns, max,
                                 CloneWork(rows) + |coded| + span, budget);
    spent := total;
    if built.Err? {
      forall x | Explain(x, rows, known, max) && GenuineRepair(x, first, span, repairId, seed, coded)
        ensures !TooLong(known, first, span, |coded|)
      {
        LongIsFalse(x, rows, known, max, first, span, repairId, seed, coded);
      }
      return Err(built.error), redundant, row, spent, peak;
    }
    row := built.value;
    assert RowOfRepair(row, known, first, span, repairId, seed, coded) by {
      BuiltIs(row, known, first, span, repairId, seed, coded);
    }
    forall x | Explain(x, rows, known, max) && GenuineRepair(x, first, span, repairId, seed, coded)
      ensures Explain(x, rows + [row], known, max)
    {
      RepairExplain(x, rows, row, known, max, first, span, repairId, seed, coded);
    }
    if |built.value.coefficients| == 0 {
      var zero := IsZero(built.value.data);
      if !zero {
        forall x ensures !Explain(x, rows + [row], known, max) {
          FalseRow(x, rows, row, known, max);
        }
        return Err(ContradictoryRepair), redundant, row, spent, peak;
      }
      RedundantRow(rows, row, known, max);
      return Ok(Outcome([], rows)), true, row, spent, peak;
    }
    PendingNormal(rows, row);
    PendingFits(rows, row, columns, max);
    var cloned := CloneRows(rows, 1, columns, max);
    cloned := Push(cloned, built.value, |rows| + 1);
    peak := (|rows| + 1) * RowBytes(columns, max);
    ghost var more;
    var settled, work;
    settled, work, more := Settle(cloned, known, columns, max, budget - total);
    spent, peak := total + work, peak + more;
    if settled.Err? {
      return Err(settled.error), redundant, row, spent, peak;
    }
    return Ok(settled.value), redundant, row, spent, peak;
  }

  lemma BuiltIs(row: Row, known: seq<KnownSource>, first: Id, span: nat, repairId: Id, seed: Id, coded: Bytes)
    requires Normal(row.coefficients) && |row.data| == |coded| && |row.coefficients| <= span
    requires forall id :: id in Ids(row.coefficients) ==>
      Lookup(known, id).None? && exists i :: 0 <= i < span && id == SymbolId(first, i)
    requires forall x :: KnownAgree(known, x) ==>
      (Sat(row, x) <==> Sat(Row(RepairTerms(first, span, repairId, seed), coded), x))
    ensures RowOfRepair(row, known, first, span, repairId, seed, coded)
  {
    hide Normal, Lookup, Sat, KnownAgree, RepairTerms;
  }

  lemma LongIsFalse(x: Assignment, rows: seq<Row>, known: seq<KnownSource>, max: nat, first: Id, span: nat,
                    repairId: Id, seed: Id, coded: Bytes)
    requires Explain(x, rows, known, max) && GenuineRepair(x, first, span, repairId, seed, coded)
    ensures !TooLong(known, first, span, |coded|)
  {
    hide Genuine, SatAll, Covers, AllIds, RepairTerms, Dot;
    forall i | 0 <= i < span && Lookup(known, SymbolId(first, i)).Some?
      ensures |Lookup(known, SymbolId(first, i)).value| <= |coded|
    {
      var k := KnownAt(known, SymbolId(first, i));
    }
  }

  lemma FalseRow(x: Assignment, rows: seq<Row>, row: Row, known: seq<KnownSource>, max: nat)
    requires row.coefficients == [] && !AllZero(row.data)
    ensures !Explain(x, rows + [row], known, max)
  {
    EquivalentSelf(rows + [row]);
    NonzeroIsContradictory(rows + [row], rows + [row], |rows|);
  }

  lemma OneRow(n: nat, size: nat)
    ensures size <= (n + 1) * size
  {
    assert (n + 1) * size == n * size + size;
  }

  lemma PendingFits(rows: seq<Row>, row: Row, columns: nat, max: nat)
    requires Pending(rows) && Normal(row.coefficients) && Within(rows, AllIds(rows), max) && |row.data| <= max
    requires CoefficientCount(rows) + |row.coefficients| <= columns
    ensures AllNormal(rows + [row]) && |AllIds(rows + [row])| <= columns
    ensures forall i :: 0 <= i < |rows| ==> |rows[i].coefficients| <= columns && |rows[i].data| <= max
    ensures forall i :: 0 <= i < |rows + [row]| ==> |(rows + [row])[i].data| <= max
  {
    PendingNormal(rows, row);
    ColumnsSuffice(rows + [row]);
    assert (rows + [row])[..|rows|] == rows;
    CoefficientsCounted(rows);
    hide Pending, AllIds, Normal, AllNormal;
  }

  lemma PendingNormal(rows: seq<Row>, row: Row)
    requires Pending(rows) && Normal(row.coefficients)
    ensures AllNormal(rows + [row])
  {
  }

  // With no equations nothing is determined.
  lemma EmptyHarvest(known: seq<KnownSource>, max: nat)
    ensures Harvested([], known, max, Outcome([], []))
  {
    hide Explain, Determined;
    assert Solved([], 0);
    EquivalentSelf([]);
    forall id ensures IsRecovered([], id) <==> Determined([], id) {
      ReportsExactlyDetermined([], [], 0, id);
    }
    assert AllIds([]) == {};
    assert forall x :: RecoveredAgree(x, []);
  }

  // ----- closed forms for the work

  /** Enough work for any source of at most `max` bytes on a matrix of this shape. */
  function SourceBound(n: nat, columns: nat, max: nat): nat {
    columns + 2 * (n * max) + n * (n * (columns + max))
  }

  /** Enough work for any repair over `span` symbols on a matrix of n rows that ends up with this many columns. */
  function RepairBound(n: nat, columns: nat, span: nat, max: nat): nat {
    columns + (n + 1) * max + span * max + (n + 1) * ((n + 1) * (columns + max))
  }

  lemma {:induction false} CloneWorkBound(rows: seq<Row>, max: nat)
    requires forall i :: 0 <= i < |rows| ==> |rows[i].data| <= max
    ensures CloneWork(rows) <= CoefficientCount(rows) + |rows| * max
  {
    if rows != [] {
      CloneWorkBound(rows[..|rows| - 1], max);
      assert |rows| * max == (|rows| - 1) * max + max;
    }
  }

  // n rows, n pivots, and a row's columns and bytes.
  function CostCap(n: nat, columns: nat, max: nat): nat {
    n * (n * (columns + max))
  }

  // The cost bound for a matrix whose columns are counted.
  lemma CountedCost(rows: seq<Row>, columns: nat, max: nat)
    requires AllNormal(rows) && |AllIds(rows)| <= columns
    requires forall i :: 0 <= i < |rows| ==> |rows[i].data| <= max
    ensures Cost(rows, 0) <= CostCap(|rows|, columns, max)
  {
    hide Cost, AllNormal;
    IdsOfAll(rows);
    CostBound(rows, 0, AllIds(rows), columns, max);
  }

  lemma SourceWorkBound(rows: seq<Row>, id: Id, source: Bytes, max: nat)
    requires AllNormal(rows) && |source| <= max && forall i :: 0 <= i < |rows| ==> |rows[i].data| <= max
    ensures SourceWork(rows, id, source) <= SourceBound(|rows|, CoefficientCount(rows), max)
  {
    hide CloneWork, SubstitutionCost, Cost, CoefficientCount, AllNormal, AllIds, SourceBound, CostCap;
    var columns, substituted := CoefficientCount(rows), SubstitutedAll(rows, id, source);
    CloneWorkBound(rows, max);
    SubstitutionCostBound(rows, id, |source|);
    SubstitutedAllFacts(rows, id, source);
    SubstitutedColumns(rows, id, source);
    CountedCost(substituted, columns, max);
    SourceSum(|rows|, columns, |source|, max, CloneWork(rows), SubstitutionCost(rows, id, |source|),
              Cost(substituted, 0));
  }

  lemma SourceSum(n: nat, columns: nat, size: nat, max: nat, clone: nat, substitution: nat, cost: nat)
    requires clone <= columns + n * max && size <= max && substitution <= n * size
    requires cost <= CostCap(n, columns, max)
    ensures clone + substitution + cost <= SourceBound(n, columns, max)
  {
    Product(n, n, size, max);
  }

  lemma RepairWorkBound(rows: seq<Row>, known: seq<KnownSource>, first: Id, span: nat, repairId: Id, seed: Id,
                        coded: Bytes, row: Row, max: nat)
    requires Pending(rows) && Within(rows, AllIds(rows), max) && |coded| <= max
    requires forall i :: 0 <= i < |known| ==> |known[i].bytes| <= max
    requires row.coefficients != [] ==> RowOfRepair(row, known, first, span, repairId, seed, coded)
    ensures RepairWork(rows, known, first, span, coded, row)
      <= RepairBound(|rows|, CoefficientCount(rows) + span, span, max)
  {
    hide CloneWork, BuildCost, Cost, CoefficientCount, AllIds, Pending, RowOfRepair, AllNormal, Normal, RepairBound;
    hide CostCap, Within;
    var columns, cost: nat := CoefficientCount(rows) + span, 0;
    CloneWorkOf(rows, max);
    BuildCostBound(known, first, span, max);
    if row.coefficients != [] {
      RepairCostBound(rows, known, first, span, repairId, seed, coded, row, max);
      cost := Cost(rows + [row], 0);
    }
    RepairSum(|rows|, columns, span, max, CloneWork(rows), |coded|, BuildCost(known, first, span), cost);
  }

  lemma CloneWorkOf(rows: seq<Row>, max: nat)
    requires Within(rows, AllIds(rows), max)
    ensures CloneWork(rows) <= CoefficientCount(rows) + |rows| * max
  {
    hide CloneWork, CoefficientCount, AllIds;
    CloneWorkBound(rows, max);
  }

  // What the elimination costs with the new row.
  lemma RepairCostBound(rows: seq<Row>, known: seq<KnownSource>, first: Id, span: nat, repairId: Id, seed: Id,
                        coded: Bytes, row: Row, max: nat)
    requires Pending(rows) && Within(rows, AllIds(rows), max) && |coded| <= max
    requires RowOfRepair(row, known, first, span, repairId, seed, coded)
    ensures Cost(rows + [row], 0) <= CostCap(|rows| + 1, CoefficientCount(rows) + span, max)
  {
    hide Cost, CoefficientCount, AllIds, Pending, RowOfRepair, AllNormal, Normal, CostCap;
    RepairRowShape(row, known, first, span, repairId, seed, coded);
    PendingFits(rows, row, CoefficientCount(rows) + span, max);
    CountedCost(rows + [row], CoefficientCount(rows) + span, max);
  }

  lemma RepairSum(n: nat, columns: nat, span: nat, max: nat, clone: nat, coded: nat, build: nat, cost: nat)
    requires clone + span <= columns + n * max && coded <= max && build <= span * max
    requires cost <= CostCap(n + 1, columns, max)
    ensures clone + coded + span + build + cost <= RepairBound(n, columns, span, max)
  {
    assert (n + 1) * max == n * max + max;
  }

  lemma RepairRowShape(row: Row, known: seq<KnownSource>, first: Id, span: nat, repairId: Id, seed: Id, coded: Bytes)
    requires RowOfRepair(row, known, first, span, repairId, seed, coded)
    ensures Normal(row.coefficients) && |row.data| == |coded| && |row.coefficients| <= span
  {
  }
}
