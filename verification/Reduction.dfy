/** The metered row operations and `reduce` itself (src/fec.rs), proved against `Elimination`. */
module Reduction {
  import opened Results
  import opened Galois
  import opened Rows
  import opened Elimination
  import opened Course
  import opened Storage
  import opened Vectors

  datatype FecError =
    | InvalidSpan
    | InvalidSymbolSize
    | RowCapacity
    | MemoryCapacity
    | WorkBudget
    | ContradictoryRepair

  /** src/fec.rs, `binary_search_by_key` on a coefficient list. */
  method FindTerm(terms: Terms, id: Id) returns (found: bool, index: nat)
    requires Sorted(terms)
    ensures found ==> index < |terms| && terms[index].0 == id
    ensures !found ==> index <= |terms|
    ensures forall i :: 0 <= i < index ==> terms[i].0 < id
    ensures !found ==> forall i :: index <= i < |terms| ==> id < terms[i].0
  {
    var low, high := 0, |terms|;
    while low < high
      invariant 0 <= low <= high <= |terms|
      invariant forall i :: 0 <= i < low ==> terms[i].0 < id
      invariant forall i :: high <= i < |terms| ==> id < terms[i].0
    {
      var mid := (low + high) / 2;
      if terms[mid].0 < id {
        low := mid + 1;
      } else if id < terms[mid].0 {
        high := mid;
      } else {
        return true, mid;
      }
    }
    return false, low;
  }

  // The in-place update at the searched position is `AddTerm`.
  lemma {:induction false} AddTermFound(terms: Terms, id: Id, v: byte, index: nat)
    requires Sorted(terms) && index < |terms| && terms[index].0 == id
    ensures var c := Add(terms[index].1, v);
      AddTerm(terms, id, v) == if c == 0 then terms[..index] + terms[index + 1..] else terms[index := (id, c)]
  {
    hide Add;
    var c := Add(terms[index].1, v);
    if index == 0 {
      assert terms[0 := (id, c)] == [(id, c)] + terms[1..];
    } else {
      AddTermFound(terms[1..], id, v, index - 1);
      if c == 0 {
        assert terms[..index] + terms[index + 1..] == [terms[0]] + (terms[1..][..index - 1] + terms[1..][index..]);
      } else {
        assert terms[index := (id, c)] == [terms[0]] + terms[1..][index - 1 := (id, c)];
      }
    }
  }

  lemma {:induction false} AddTermMissing(terms: Terms, id: Id, v: byte, index: nat)
    requires Sorted(terms) && index <= |terms|
    requires forall i :: 0 <= i < index ==> terms[i].0 < id
    requires forall i :: index <= i < |terms| ==> id < terms[i].0
    ensures AddTerm(terms, id, v) == terms[..index] + [(id, v)] + terms[index..]
  {
    hide Add;
    if index == 0 {
      assert terms[..0] + [(id, v)] + terms[0..] == [(id, v)] + terms;
    } else {
      AddTermMissing(terms[1..], id, v, index - 1);
      assert terms[..index] + [(id, v)] + terms[index..] ==
             [terms[0]] + (terms[1..][..index - 1] + [(id, v)] + terms[1..][index - 1..]);
    }
  }

  /** src/fec.rs, `scale_row`: fails exactly when its steps would pass the work budget. */
  method ScaleRow(row: Row, factor: byte, work: nat, budget: nat) returns (ok: bool, r: Row, spent: nat)
    requires work <= budget
    ensures ok <==> work + |row.coefficients| + |row.data| <= budget
    ensures ok ==> r == Scaled(row, factor) && spent == work + |row.coefficients| + |row.data|
  {
    var terms, data := row.coefficients, row.data;
    spent := work;
    r := row;
    var i := 0;
    while i < |terms|
      invariant 0 <= i <= |terms| == |row.coefficients|
      invariant spent == work + i <= budget
      invariant forall k :: 0 <= k < i ==> terms[k] == (row.coefficients[k].0, Mul(row.coefficients[k].1, factor))
      invariant forall k :: i <= k < |terms| ==> terms[k] == row.coefficients[k]
    {
      spent := spent + 1;
      if spent > budget {
        return false, r, spent;
      }
      var value := Multiply(terms[i].1, factor);
      terms := terms[i := (terms[i].0, value)];
      i := i + 1;
    }
    assert terms == ScaleTerms(row.coefficients, factor);
    i := 0;
    while i < |data|
      invariant 0 <= i <= |data| == |row.data|
      invariant spent == work + |terms| + i <= budget
      invariant forall k :: 0 <= k < i ==> data[k] == Mul(row.data[k], factor)
      invariant forall k :: i <= k < |data| ==> data[k] == row.data[k]
    {
      spent := spent + 1;
      if spent > budget {
        return false, r, spent;
      }
      var value := Multiply(data[i], factor);
      data := data[i := value];
      i := i + 1;
    }
    assert data == ScaleBytes(row.data, factor);
    return true, Row(terms, data), spent;
  }

  /**
   * src/fec.rs, `subtract_row`, on a row with room for `columns` coefficients and `max` bytes: it never grows past
   * them.
   */
  method SubtractRow(target: Row, source: Row, factor: byte, columns: nat, max: nat, work: nat, budget: nat,
                     ghost ids: set<Id>)
    returns (ok: bool, r: Row, spent: nat)
    requires Normal(target.coefficients) && Normal(source.coefficients) && factor != 0
    requires Ids(target.coefficients) <= ids && Ids(source.coefficients) <= ids && |ids| <= columns
    requires |target.data| <= max && |source.data| <= max
    requires work <= budget
    ensures ok <==> work + |source.coefficients| + |source.data| <= budget
    ensures ok ==> r == Combined(target, source, factor)
    ensures ok ==> spent == work + |source.coefficients| + |source.data|
  {
    hide Add, Mul;
    spent := work;
    r := target;
    var data := target.data;
    if |data| < |source.data| {
      data := Resize(data, |source.data|, 0, max);
      assert forall k :: 0 <= k < |target.data| ==> data[k] == data[..|target.data|][k];
    }
    var terms := target.coefficients;
    var i := 0;
    assert source.coefficients[..0] == [];
    while i < |source.coefficients|
      invariant 0 <= i <= |source.coefficients|
      invariant spent == work + i <= budget
      invariant Normal(terms) && Ids(terms) <= ids
      invariant terms == AddTerms(target.coefficients, source.coefficients[..i], factor)
    {
      spent := spent + 1;
      if spent > budget {
        return false, r, spent;
      }
      var id := source.coefficients[i].0;
      var scaled := Multiply(source.coefficients[i].1, factor);
      var found, index := FindTerm(terms, id);
      MulNonzero(source.coefficients[i].1, factor);
      AddTermNormal(terms, id, scaled);
      AddTermsStep(target.coefficients, source.coefficients, factor, i);
      if found {
        AddTermFound(terms, id, scaled, index);
        var value := Add(terms[index].1, scaled);
        if value == 0 {
          terms := terms[..index] + terms[index + 1..];
        } else {
          terms := terms[index := (id, value)];
        }
      } else {
        AddTermMissing(terms, id, scaled, index);
        TermsLeaveRoom(terms, id, ids);
        terms := Insert(terms, index, (id, scaled), columns);
      }
      i := i + 1;
    }
    assert source.coefficients[..i] == source.coefficients;
    i := 0;
    while i < |source.data|
      invariant 0 <= i <= |source.data|
      invariant |data| == Max(|target.data|, |source.data|)
      invariant spent == work + |source.coefficients| + i <= budget
      invariant forall k :: 0 <= k < i ==> data[k] == Add(At(target.data, k), Mul(source.data[k], factor))
      invariant forall k :: i <= k < |data| ==> data[k] == At(target.data, k)
    {
      spent := spent + 1;
      if spent > budget {
        return false, r, spent;
      }
      var value := Multiply(source.data[i], factor);
      data := data[i := Add(data[i], value)];
      i := i + 1;
    }
    forall k | 0 <= k < |data| ensures data[k] == AddBytes(target.data, source.data, factor)[k] {
      MulUnits(factor);
      AddUnits(At(target.data, k));
    }
    return true, Row(terms, data), spent;
  }

  lemma AddTermsStep(terms: Terms, source: Terms, f: byte, i: nat)
    requires i < |source|
    ensures AddTerms(terms, source[..i + 1], f) ==
            AddTerm(AddTerms(terms, source[..i], f), source[i].0, Mul(source[i].1, f))
  {
    assert source[..i + 1][..i] == source[..i];
  }

  // ----- the result of a finished elimination

  /** The first p rows are pivots; the rest have no coefficients and zero data. */
  ghost predicate Solved(rows: seq<Row>, p: nat) {
    && Echelon(rows, p)
    && forall i :: p <= i < |rows| ==> rows[i].coefficients == [] && AllZero(rows[i].data)
  }

  ghost predicate AllZero(data: Bytes) {
    forall j :: 0 <= j < |data| ==> data[j] == 0
  }

  /** The symbols that single-coefficient rows give away. */
  function Reported(rows: seq<Row>): seq<(Id, Bytes)> {
    if rows == [] then []
    else
      var last := rows[|rows| - 1];
      Reported(rows[..|rows| - 1]) +
      (if |last.coefficients| == 1 then [(last.coefficients[0].0, last.data)] else [])
  }

  /** src/fec.rs, the selection of the next pivot row. */
  method FindCandidate(rows: seq<Row>, pivot: nat) returns (candidate: Option<nat>)
    requires pivot <= |rows|
    ensures candidate == Candidate(rows, pivot, |rows|)
  {
    candidate := None;
    var i := pivot;
    while i < |rows|
      invariant pivot <= i <= |rows|
      invariant candidate == Candidate(rows, pivot, i)
    {
      if rows[i].coefficients != [] && (candidate.None? || Lead(rows[i]) < Lead(rows[candidate.value])) {
        candidate := Some(i);
      }
      i := i + 1;
    }
  }

  /**
   * src/fec.rs, the inner loop of `reduce`: clears the pivot symbol from every other row, with a copy of the pivot row.
   */
  method ClearColumn(rows: seq<Row>, pivot: nat, columns: nat, max: nat, work: nat, budget: nat, ghost ids: set<Id>)
    returns (ok: bool, r: seq<Row>, spent: nat)
    requires AllNormal(rows) && pivot < |rows| && rows[pivot].coefficients != []
    requires Within(rows, ids, max) && |ids| <= columns
    requires work <= budget
    ensures ok <==> work + ColumnCost(rows, pivot) <= budget
    ensures ok ==> r == Cleared(rows, pivot) && spent == work + ColumnCost(rows, pivot)
  {
    hide Combined, Normal, Coef, Ids;
    r, spent := rows, work;
    var terms := Copy(rows[pivot].coefficients, |rows[pivot].coefficients|);
    var data := Copy(rows[pivot].data, max);
    var source := Row(terms, data);
    var pivotId := Lead(source);
    var index := 0;
    while index < |rows|
      invariant 0 <= index <= |rows| == |r|
      invariant spent == work + ClearCost(rows, pivot, index) <= budget
      invariant forall k :: 0 <= k < index ==> r[k] == Cleared(rows, pivot)[k]
      invariant forall k :: index <= k < |rows| ==> r[k] == rows[k]
    {
      ClearCostGrows(rows, pivot, index + 1, |rows|);
      if index != pivot {
        var factor := FindFactor(r[index].coefficients, pivotId);
        if factor != 0 {
          var fine, row, total := SubtractRow(r[index], source, factor, columns, max, spent, budget, ids);
          if !fine {
            return false, r, spent;
          }
          r, spent := r[index := row], total;
        }
      }
      index := index + 1;
    }
    assert r == Cleared(rows, pivot);
    return true, r, spent;
  }

  /** The linear search for a symbol's coefficient; zero stands for an absent symbol. */
  method FindFactor(terms: Terms, id: Id) returns (factor: byte)
    requires Normal(terms)
    ensures factor == Coef(terms, id)
  {
    var i := 0;
    while i < |terms|
      invariant 0 <= i <= |terms|
      invariant forall k :: 0 <= k < i ==> terms[k].0 != id
    {
      if terms[i].0 == id {
        CoefAt(terms, i);
        return terms[i].1;
      }
      i := i + 1;
    }
    CoefAbsent(terms, id);
    return 0;
  }

  /** src/fec.rs, the pivot loop of `reduce`: fails exactly when its work would pass the budget. */
  method Eliminate(rows: seq<Row>, columns: nat, max: nat, budget: nat)
    returns (ok: bool, r: seq<Row>, ghost p: nat, spent: nat, ghost widest: nat)
    requires AllNormal(rows) && |AllIds(rows)| <= columns
    requires forall i :: 0 <= i < |rows| ==> |rows[i].data| <= max
    ensures ok <==> Cost(rows, 0) <= budget
    ensures ok ==> r == Reduced(rows, 0) && spent == Cost(rows, 0) && widest == WidestPivot(rows, 0)
    ensures ok ==> |r| == |rows| && Echelon(r, p) && forall i :: p <= i < |r| ==> r[i].coefficients == []
    ensures ok ==> Equivalent(rows, r)
    ensures ok ==> Within(r, AllIds(rows), max) && KeepsCovers(rows, r)
    ensures widest <= WidestPivot(rows, 0)
  {
    hide Echelon, Equivalent, Within, KeepsCovers, AllIds, Cost, Reduced, WidestPivot, PivotCost, Pivoted, Normal;
    hide AllNormal;
    r, p, spent, widest := rows, 0, 0, 0;
    StartsWithin(rows, max);
    StartsEchelon(rows);
    var pivot := 0;
    while pivot < |r|
      invariant p == pivot <= |r| == |rows|
      invariant spent <= budget && spent + Cost(r, pivot) == Cost(rows, 0)
      invariant Reduced(r, pivot) == Reduced(rows, 0) && Max(widest, WidestPivot(r, pivot)) == WidestPivot(rows, 0)
      invariant Echelon(r, p)
      invariant Equivalent(rows, r)
      invariant Within(r, AllIds(rows), max) && KeepsCovers(rows, r)
    {
      var found := FindCandidate(r, pivot);
      CourseIs(r, pivot);
      if found.None? {
        break;
      }
      var candidate := found.value;
      ghost var next := PivotKeeps(rows, r, pivot, candidate, max);
      widest := Max(widest, |r[candidate].coefficients|);
      var fine;
      fine, r, spent := TakePivot(r, pivot, candidate, columns, max, spent, budget, AllIds(rows));
      if !fine {
        return false, r, p, spent, widest;
      }
      pivot, p := pivot + 1, p + 1;
    }
    CourseIs(r, pivot);
    ok := true;
  }

  /** One turn of the pivot loop. */
  method TakePivot(rows: seq<Row>, pivot: nat, candidate: nat, columns: nat, max: nat, work: nat, budget: nat,
                   ghost ids: set<Id>)
    returns (ok: bool, r: seq<Row>, spent: nat)
    requires AllNormal(rows) && pivot < |rows| && candidate < |rows| && Divisible(rows[candidate])
    requires Within(rows, ids, max) && |ids| <= columns && work <= budget
    ensures ok <==> work + PivotCost(rows, pivot, candidate) <= budget
    ensures ok ==> r == Pivoted(rows, pivot, candidate) && spent == work + PivotCost(rows, pivot, candidate)
  {
    hide Normal, AllNormal, Within, Cleared, ClearCost, Mul, Inv;
    r := Swap(rows, pivot, candidate);
    var inverse := Inverse(r[pivot].coefficients[0].1);
    var fine, row, total := ScaleRow(r[pivot], inverse, work, budget);
    if !fine {
      return false, r, work;
    }
    PreparedNormal(rows, pivot, candidate);
    PreparedWithin(rows, pivot, candidate, ids, max);
    PivotedIs(rows, pivot, candidate);
    ok, r, spent := ClearColumn(r[pivot := row], pivot, columns, max, total, budget, ids);
  }

  lemma PreparedWithin(rows: seq<Row>, p: nat, c: nat, ids: set<Id>, max: nat)
    requires AllNormal(rows) && p < |rows| && c < |rows| && Divisible(rows[c]) && Within(rows, ids, max)
    ensures Within(Prepared(rows, p, c), ids, max)
  {
    hide Mul, Inv, ScaleTerms;
    ScaledNormal(rows[c].coefficients, Inv(rows[c].coefficients[0].1));
    hide Normal, Ids;
  }

  lemma CourseIs(rows: seq<Row>, p: nat)
    requires p <= |rows|
    ensures var c := Candidate(rows, p, |rows|);
      if c.None? || !Divisible(rows[c.value]) then
        Cost(rows, p) == 0 && Reduced(rows, p) == rows && WidestPivot(rows, p) == 0
      else
        && Cost(rows, p) == PivotCost(rows, p, c.value) + Cost(Pivoted(rows, p, c.value), p + 1)
        && Reduced(rows, p) == Reduced(Pivoted(rows, p, c.value), p + 1)
        && WidestPivot(rows, p) == Max(|rows[c.value].coefficients|, WidestPivot(Pivoted(rows, p, c.value), p + 1))
  {
    hide PivotCost, Pivoted;
  }

  /** What one turn keeps of the elimination of `rows`. */
  lemma PivotKeeps(rows: seq<Row>, r: seq<Row>, pivot: nat, c: nat, max: nat) returns (next: seq<Row>)
    requires Echelon(r, pivot) && pivot < |r| && Candidate(r, pivot, |r|) == Some(c)
    requires Equivalent(rows, r) && Within(r, AllIds(rows), max) && KeepsCovers(rows, r)
    ensures AllNormal(r) && Divisible(r[c]) && next == Pivoted(r, pivot, c)
    ensures Echelon(next, pivot + 1) && Equivalent(rows, next)
    ensures Within(next, AllIds(rows), max) && KeepsCovers(rows, next)
  {
    hide Echelon, Equivalent, Within, KeepsCovers, AllIds, Candidate, Pivoted;
    assert IsCandidate(r, pivot, c);
    PivotedEchelon(r, pivot, c);
    NormalNonzero(r[c].coefficients);
    PivotedEquivalent(r, pivot, c);
    next := Pivoted(r, pivot, c);
    EquivalentTransitive(rows, r, next);
    EchelonAllNormal(r, pivot);
    PivotedBounds(r, pivot, c, AllIds(rows), max);
    KeepsCoversTransitive(rows, r, next);
  }

  lemma StartsEchelon(rows: seq<Row>)
    requires AllNormal(rows)
    ensures Echelon(rows, 0) && Equivalent(rows, rows)
  {
  }

  /** src/fec.rs, the closing loop of `reduce`: one vector with room for a value per row, and one for each value. */
  method Collect(rows: seq<Row>, max: nat) returns (ok: bool, recovered: seq<(Id, Bytes)>)
    requires forall i :: 0 <= i < |rows| ==> |rows[i].data| <= max
    ensures ok <==> forall k :: 0 <= k < |rows| && rows[k].coefficients == [] ==> AllZero(rows[k].data)
    ensures ok ==> recovered == Reported(rows) && |recovered| <= |rows|
  {
    recovered := [];
    var i := 0;
    while i < |rows|
      invariant 0 <= i <= |rows| && |recovered| <= i
      invariant recovered == Reported(rows[..i])
      invariant forall k :: 0 <= k < i && rows[k].coefficients == [] ==> AllZero(rows[k].data)
    {
      if rows[i].coefficients == [] {
        var zero := IsZero(rows[i].data);
        if !zero {
          return false, recovered;
        }
      }
      assert rows[..i + 1][..i] == rows[..i];
      if |rows[i].coefficients| == 1 {
        var data := Copy(rows[i].data, max);
        recovered := Push(recovered, (rows[i].coefficients[0].0, data), |rows|);
      }
      i := i + 1;
    }
    assert rows[..|rows|] == rows;
    ok := true;
  }

  /** src/fec.rs, `reduce`. The trailing sort and removal of duplicates change nothing: see `ReportedRises`. */
  method Reduce(rows: seq<Row>, columns: nat, max: nat, budget: nat)
    returns (res: Result<seq<(Id, Bytes)>, FecError>, r: seq<Row>, ghost p: nat, spent: nat, ghost widest: nat)
    requires AllNormal(rows) && |AllIds(rows)| <= columns
    requires forall i :: 0 <= i < |rows| ==> |rows[i].data| <= max
    ensures res == Err(WorkBudget) <==> Cost(rows, 0) > budget
    ensures res != Err(WorkBudget) ==> r == Reduced(rows, 0) && spent == Cost(rows, 0)
    ensures widest <= WidestPivot(rows, 0)
    ensures res.Ok? ==> res.value == Reported(r) && Solved(r, p) && |res.value| <= |rows|
    ensures res.Ok? ==> |r| == |rows| && Equivalent(rows, r)
    ensures res.Ok? ==> Within(r, AllIds(rows), max) && KeepsCovers(rows, r)
    ensures res.Err? ==> res.error == WorkBudget || res.error == ContradictoryRepair
    ensures res.Err? && res.error == ContradictoryRepair ==> forall x :: !SatAll(rows, x)
  {
    hide Equivalent, KeepsCovers, AllIds, Cost, Reduced, WidestPivot, Ids, Echelon;
    var fine;
    fine, r, p, spent, widest := Eliminate(rows, columns, max, budget);
    if !fine {
      return Err(WorkBudget), r, p, spent, widest;
    }
    var recovered;
    fine, recovered := Collect(r, max);
    if !fine {
      ghost var k :| 0 <= k < |r| && r[k].coefficients == [] && !AllZero(r[k].data);
      NonzeroIsContradictory(rows, r, k);
      return Err(ContradictoryRepair), r, p, spent, widest;
    }
    res := Ok(recovered);
  }

  method IsZero(data: Bytes) returns (zero: bool)
    ensures zero <==> AllZero(data)
  {
    var j := 0;
    while j < |data|
      invariant 0 <= j <= |data|
      invariant forall k :: 0 <= k < j ==> data[k] == 0
    {
      if data[j] != 0 {
        return false;
      }
      j := j + 1;
    }
    return true;
  }

  lemma StartsWithin(rows: seq<Row>, max: nat)
    requires forall i :: 0 <= i < |rows| ==> |rows[i].data| <= max
    ensures Within(rows, AllIds(rows), max) && KeepsCovers(rows, rows)
  {
    forall i | 0 <= i < |rows| ensures Ids(rows[i].coefficients) <= AllIds(rows) {
    }
  }

  lemma EchelonAllNormal(rows: seq<Row>, p: nat)
    requires Echelon(rows, p)
    ensures AllNormal(rows)
  {
  }

  lemma KeepsCoversTransitive(a: seq<Row>, b: seq<Row>, c: seq<Row>)
    requires KeepsCovers(a, b) && KeepsCovers(b, c)
    ensures KeepsCovers(a, c)
  {
  }

  lemma NonzeroIsContradictory(rows: seq<Row>, r: seq<Row>, i: nat)
    requires Equivalent(rows, r) && i < |r| && r[i].coefficients == [] && !AllZero(r[i].data)
    ensures forall x :: !SatAll(rows, x)
  {
    var j :| 0 <= j < |r[i].data| && r[i].data[j] != 0;
    forall x ensures !SatAll(rows, x) {
      assert Dot([], x, j) == 0 != At(r[i].data, j);
      assert !Sat(r[i], x);
    }
  }
}
