/** What a finished elimination says about the unknown symbols: exactly the determined ones are reported. */
module Determination {
  import opened Galois
  import opened Rows
  import opened Elimination
  import opened Reduction

  ghost predicate IsReported(rows: seq<Row>, id: Id) {
    exists k :: 0 <= k < |Reported(rows)| && Reported(rows)[k].0 == id
  }

  lemma {:induction false} ReportedFrom(rows: seq<Row>, k: nat) returns (i: nat)
    requires k < |Reported(rows)|
    ensures i < |rows| && |rows[i].coefficients| == 1
    ensures Reported(rows)[k] == (rows[i].coefficients[0].0, rows[i].data)
  {
    i := |rows| - 1;
    if k < |Reported(rows[..i])| {
      i := ReportedFrom(rows[..i], k);
    }
  }

  lemma {:induction false} ReportedHas(rows: seq<Row>, i: nat) returns (k: nat)
    requires i < |rows| && |rows[i].coefficients| == 1
    ensures k < |Reported(rows)| && Reported(rows)[k] == (rows[i].coefficients[0].0, rows[i].data)
  {
    if i < |rows| - 1 {
      k := ReportedHas(rows[..|rows| - 1], i);
    } else {
      k := |Reported(rows)| - 1;
    }
  }

  /** Reported ids rise strictly, so sorting and removing duplicates leave the list alone. */
  lemma {:induction false} ReportedRises(rows: seq<Row>)
    requires forall i, k :: 0 <= i < k < |rows| && rows[i].coefficients != [] ==>
      Above(rows[i].coefficients[0].0, rows[k].coefficients)
    ensures forall a, b :: 0 <= a < b < |Reported(rows)| ==> Reported(rows)[a].0 < Reported(rows)[b].0
  {
    if rows != [] {
      var n := |rows| - 1;
      ReportedRises(rows[..n]);
      forall a | 0 <= a < |Reported(rows[..n])| && |rows[n].coefficients| == 1
        ensures Reported(rows[..n])[a].0 < rows[n].coefficients[0].0
      {
        var i := ReportedFrom(rows[..n], a);
      }
    }
  }

  /** Soundness: every solution agrees with what is reported. */
  lemma ReportedIsForced(rows: seq<Row>, p: nat, x: Assignment, k: nat, j: nat)
    requires Solved(rows, p) && SatAll(rows, x) && k < |Reported(rows)|
    ensures Cell(x, Reported(rows)[k].0, j) == At(Reported(rows)[k].1, j)
  {
    hide Add, Mul;
    var i := ReportedFrom(rows, k);
    var id := rows[i].coefficients[0].0;
    assert Sat(rows[i], x);
    assert i < p && rows[i].coefficients == [(id, 1)];
    DotSingle(id, 1, x, j);
    MulUnits(Cell(x, id, j));
  }

  // ----- existence of a solution

  /** Gives every pivot symbol its row's data, and zero to the rest. */
  function PivotValues(rows: seq<Row>, p: nat): Assignment
    requires p <= |rows| && forall i :: 0 <= i < p ==> rows[i].coefficients != []
  {
    if p == 0 then map[]
    else PivotValues(rows, p - 1)[rows[p - 1].coefficients[0].0 := rows[p - 1].data]
  }

  ghost predicate LeadsRise(rows: seq<Row>, p: nat) {
    && p <= |rows|
    && (forall i :: 0 <= i < p ==> rows[i].coefficients != [])
    && forall i, k :: 0 <= i < k < p ==> rows[i].coefficients[0].0 < rows[k].coefficients[0].0
  }

  lemma EchelonRises(rows: seq<Row>, p: nat)
    requires Echelon(rows, p)
    ensures LeadsRise(rows, p)
  {
    forall i, k | 0 <= i < k < p ensures rows[i].coefficients[0].0 < rows[k].coefficients[0].0 {
      assert Above(rows[i].coefficients[0].0, rows[k].coefficients);
    }
  }

  lemma {:induction false} PivotValuesAre(rows: seq<Row>, n: nat)
    requires LeadsRise(rows, n)
    ensures forall id :: id in PivotValues(rows, n) ==> exists i :: 0 <= i < n && id == rows[i].coefficients[0].0
    ensures forall i :: 0 <= i < n ==>
      var id := rows[i].coefficients[0].0;
      id in PivotValues(rows, n) && PivotValues(rows, n)[id] == rows[i].data
  {
    if n != 0 {
      PivotValuesAre(rows, n - 1);
    }
  }

  // A pivot row's symbols after the first are not pivots.
  lemma TailIsFree(rows: seq<Row>, p: nat, i: nat, t: nat, k: nat)
    requires Echelon(rows, p) && i < |rows| && k < p
    requires t < |rows[i].coefficients| && (i == k ==> t > 0)
    ensures rows[i].coefficients[t].0 != rows[k].coefficients[0].0
  {
    if i != k {
      CoefAt(rows[i].coefficients, t);
    }
  }

  lemma Solvable(rows: seq<Row>, p: nat)
    requires Solved(rows, p)
    ensures SatAll(rows, PivotValues(rows, p))
  {
    hide Add, Mul;
    var x := PivotValues(rows, p);
    EchelonRises(rows, p);
    PivotValuesAre(rows, p);
    forall i, j: nat | 0 <= i < |rows| ensures Dot(rows[i].coefficients, x, j) == At(rows[i].data, j) {
      if i < p {
        var terms := rows[i].coefficients;
        var tail := terms[1..];
        assert terms == [terms[0]] + tail;
        DotCons(terms[0], tail, x, j);
        forall t | 0 <= t < |tail| ensures Cell(x, tail[t].0, j) == 0 {
          forall k | 0 <= k < p ensures tail[t].0 != rows[k].coefficients[0].0 {
            TailIsFree(rows, p, i, t + 1, k);
          }
        }
        DotZero(tail, x, j);
        MulUnits(At(rows[i].data, j));
        AddUnits(At(rows[i].data, j));
      }
    }
  }

  // ----- a second solution, when a symbol is not determined

  function Value(x: Assignment, id: Id): Bytes {
    if id in x then x[id] else []
  }

  function Plus(x: Assignment, e: Assignment): Assignment {
    map id | id in x.Keys + e.Keys :: AddBytes(Value(x, id), Value(e, id), 1)
  }

  lemma PlusCell(x: Assignment, e: Assignment, id: Id, j: nat)
    ensures Cell(Plus(x, e), id, j) == Add(Cell(x, id, j), Cell(e, id, j))
  {
    hide Add, Mul;
    AddedAt(Value(x, id), Value(e, id), 1, j);
    MulUnits(At(Value(e, id), j));
    AddUnits(0);
  }

  lemma {:induction false} PlusDot(terms: Terms, x: Assignment, e: Assignment, j: nat)
    ensures Dot(terms, Plus(x, e), j) == Add(Dot(terms, x, j), Dot(terms, e, j))
  {
    hide Add, Mul, Plus, Cell;
    AddUnits(0);
    if terms != [] {
      var c, id := terms[0].1, terms[0].0;
      PlusDot(terms[1..], x, e, j);
      PlusCell(x, e, id, j);
      MulAddsRight(c, Cell(x, id, j), Cell(e, id, j));
      AddSwaps(Mul(c, Cell(x, id, j)), Mul(c, Cell(e, id, j)), Dot(terms[1..], x, j), Dot(terms[1..], e, j));
    }
  }

  /** One at the free symbol f, and at each pivot symbol the amount that balances it. */
  function Direction(rows: seq<Row>, p: nat, f: Id): Assignment
    requires p <= |rows| && forall i :: 0 <= i < p ==> rows[i].coefficients != []
  {
    if p == 0 then map[f := [1]]
    else Direction(rows, p - 1, f)[rows[p - 1].coefficients[0].0 := [Coef(rows[p - 1].coefficients, f)]]
  }

  lemma {:induction false} DirectionIs(rows: seq<Row>, n: nat, f: Id)
    requires LeadsRise(rows, n)
    requires forall i :: 0 <= i < n ==> rows[i].coefficients[0].0 != f
    ensures f in Direction(rows, n, f) && Direction(rows, n, f)[f] == [1]
    ensures forall id :: id in Direction(rows, n, f) ==>
      id == f || exists i :: 0 <= i < n && id == rows[i].coefficients[0].0
    ensures forall i :: 0 <= i < n ==>
      var id := rows[i].coefficients[0].0;
      id in Direction(rows, n, f) && Direction(rows, n, f)[id] == [Coef(rows[i].coefficients, f)]
  {
    if n != 0 {
      hide Coef;
      DirectionIs(rows, n - 1, f);
    }
  }

  // Terms among which only f matters contribute f's coefficient.
  lemma {:induction false} DotOnly(terms: Terms, e: Assignment, f: Id)
    requires Normal(terms) && Cell(e, f, 0) == 1
    requires forall t :: 0 <= t < |terms| && terms[t].0 != f ==> Cell(e, terms[t].0, 0) == 0
    ensures Dot(terms, e, 0) == Coef(terms, f)
  {
    if terms != [] {
      hide Add, Mul, Cell;
      var tail := terms[1..];
      TailNormal(terms);
      MulUnits(terms[0].1);
      if terms[0].0 == f {
        forall t | 0 <= t < |tail| ensures Cell(e, tail[t].0, 0) == 0 {
          assert tail[t].0 in Ids(tail);
        }
        DotZero(tail, e, 0);
        AddUnits(terms[0].1);
      } else {
        DotOnly(tail, e, f);
        AddUnits(Coef(tail, f));
      }
    }
  }

  lemma DirectionAtTail(rows: seq<Row>, p: nat, f: Id, i: nat, t: nat)
    requires Echelon(rows, p) && i < p && 0 < t < |rows[i].coefficients|
    requires forall k :: 0 <= k < p ==> rows[k].coefficients[0].0 != f
    ensures rows[i].coefficients[t].0 != f ==> Cell(Direction(rows, p, f), rows[i].coefficients[t].0, 0) == 0
  {
    forall k | 0 <= k < p ensures rows[i].coefficients[t].0 != rows[k].coefficients[0].0 {
      TailIsFree(rows, p, i, t, k);
    }
    EchelonRises(rows, p);
    hide Coef, Echelon, Direction;
    DirectionIs(rows, p, f);
  }

  // Past the first column the direction is zero everywhere.
  lemma {:induction false} DirectionIsShort(rows: seq<Row>, p: nat, f: Id, id: Id, j: nat)
    requires p <= |rows| && forall i :: 0 <= i < p ==> rows[i].coefficients != []
    requires j > 0
    ensures Cell(Direction(rows, p, f), id, j) == 0
  {
    if p != 0 {
      DirectionIsShort(rows, p - 1, f, id, j);
    }
  }

  lemma DirectionIsNull(rows: seq<Row>, p: nat, f: Id, i: nat, j: nat)
    requires Solved(rows, p) && i < |rows|
    requires forall k :: 0 <= k < p ==> rows[k].coefficients[0].0 != f
    ensures Dot(rows[i].coefficients, Direction(rows, p, f), j) == 0
  {
    var e := Direction(rows, p, f);
    var terms := rows[i].coefficients;
    if j > 0 {
      forall t | 0 <= t < |terms| ensures Cell(e, terms[t].0, j) == 0 {
        DirectionIsShort(rows, p, f, terms[t].0, j);
      }
      DotZero(terms, e, j);
    } else if i < p {
      EchelonRises(rows, p);
      DirectionIs(rows, p, f);
      hide Add, Mul, Direction;
      var tail := terms[1..];
      forall t | 0 <= t < |tail| && tail[t].0 != f ensures Cell(e, tail[t].0, 0) == 0 {
        DirectionAtTail(rows, p, f, i, t + 1);
      }
      hide Cell, Echelon;
      TailNormal(terms);
      DotOnly(tail, e, f);
      DotCons(terms[0], tail, e, 0);
      MulUnits(Coef(terms, f));
      AddUnits(Coef(terms, f));
    }
  }

  // The symbol whose change moves `id`: itself, or the second symbol of its pivot row.
  lemma FreeSymbol(rows: seq<Row>, p: nat, id: Id) returns (f: Id)
    requires Solved(rows, p) && !IsReported(rows, id)
    ensures forall k :: 0 <= k < p ==> rows[k].coefficients[0].0 != f
    ensures Cell(Direction(rows, p, f), id, 0) != 0
  {
    if i :| 0 <= i < p && rows[i].coefficients[0].0 == id {
      if |rows[i].coefficients| == 1 {
        var k := ReportedHas(rows, i);
        assert false;
      }
      f := rows[i].coefficients[1].0;
      forall k | 0 <= k < p ensures rows[k].coefficients[0].0 != f {
        TailIsFree(rows, p, i, 1, k);
      }
      CoefAt(rows[i].coefficients, 1);
    } else {
      f := id;
    }
    EchelonRises(rows, p);
    DirectionIs(rows, p, f);
  }

  /** Completeness: a symbol that is not reported takes two different values in two solutions. */
  lemma UnreportedIsFree(rows: seq<Row>, p: nat, x: Assignment, id: Id) returns (y: Assignment)
    requires Solved(rows, p) && SatAll(rows, x) && !IsReported(rows, id)
    ensures SatAll(rows, y) && Cell(y, id, 0) != Cell(x, id, 0)
  {
    hide Add, Mul, Dot, Solved, Plus, Direction, Cell;
    var f := FreeSymbol(rows, p, id);
    assert p <= |rows| && forall i :: 0 <= i < p ==> rows[i].coefficients != [] by { SolvedPivots(rows, p); }
    var e := Direction(rows, p, f);
    y := Plus(x, e);
    forall i, j: nat | 0 <= i < |rows| ensures Dot(rows[i].coefficients, y, j) == At(rows[i].data, j) {
      assert Sat(rows[i], x);
      PlusDot(rows[i].coefficients, x, e, j);
      DirectionIsNull(rows, p, f, i, j);
      AddUnits(Dot(rows[i].coefficients, x, j));
    }
    PlusCell(x, e, id, 0);
    AddCancels(Cell(x, id, 0), Cell(e, id, 0));
    AddCommutes(Cell(x, id, 0), Cell(e, id, 0));
    AddCancels(Cell(e, id, 0), Cell(x, id, 0));
    AddUnits(Cell(x, id, 0));
  }

  lemma SolvedPivots(rows: seq<Row>, p: nat)
    requires Solved(rows, p)
    ensures p <= |rows| && forall i :: 0 <= i < p ==> rows[i].coefficients != []
  {
  }

  /** A symbol has the same value in every solution of the equations. */
  ghost predicate Determined(rows: seq<Row>, id: Id) {
    forall x, y, j: nat :: SatAll(rows, x) && SatAll(rows, y) ==> Cell(x, id, j) == Cell(y, id, j)
  }

  /** `reduce` reports a symbol exactly when the equations it was given determine it. */
  lemma ReportsExactlyDetermined(rows: seq<Row>, r: seq<Row>, p: nat, id: Id)
    requires Equivalent(rows, r) && Solved(r, p)
    ensures IsReported(r, id) <==> Determined(rows, id)
    ensures SatAll(rows, PivotValues(r, p))
  {
    hide Solved, Echelon, SatAll, Cell;
    SolvedPivots(r, p);
    Solvable(r, p);
    if IsReported(r, id) {
      var k :| 0 <= k < |Reported(r)| && Reported(r)[k].0 == id;
      forall x, y, j: nat | SatAll(rows, x) && SatAll(rows, y) ensures Cell(x, id, j) == Cell(y, id, j) {
        ReportedIsForced(r, p, x, k, j);
        ReportedIsForced(r, p, y, k, j);
      }
    } else {
      var x := PivotValues(r, p);
      var y := UnreportedIsFree(r, p, x, id);
    }
  }
}
