/** Moving known symbols to the right-hand side of repair equations (src/fec.rs). */
module Substitution {
  import opened Results
  import opened Galois
  import opened Rows
  import opened Elimination
  import opened Reduction
  import opened Vectors
  import opened Repair
  import Determination

  /** src/fec.rs, `xor_scaled`: adds a multiple of a source to row data that is at least as long. */
  method XorScaled(target: Bytes, source: Bytes, factor: byte, work: nat, budget: nat)
    returns (res: Result<Bytes, FecError>, spent: nat)
    requires work <= budget
    ensures res == Err(InvalidSymbolSize) <==> |source| > |target|
    ensures res == Err(WorkBudget) <==> |source| <= |target| && work + |source| > budget
    ensures res.Err? ==> res.error == InvalidSymbolSize || res.error == WorkBudget
    ensures res.Ok? ==> res.value == AddBytes(target, source, factor) && spent == work + |source|
  {
    hide Add, Mul;
    spent := work;
    if |source| > |target| {
      return Err(InvalidSymbolSize), spent;
    }
    var data := target;
    var i := 0;
    while i < |source|
      invariant 0 <= i <= |source| <= |data| == |target|
      invariant spent == work + i <= budget
      invariant forall k :: 0 <= k < i ==> data[k] == Add(target[k], Mul(source[k], factor))
      invariant forall k :: i <= k < |data| ==> data[k] == target[k]
    {
      spent := spent + 1;
      if spent > budget {
        return Err(WorkBudget), spent;
      }
      var value := Multiply(source[i], factor);
      data := data[i := Add(data[i], value)];
      i := i + 1;
    }
    forall k | 0 <= k < |data| ensures data[k] == AddBytes(target, source, factor)[k] {
      MulUnits(factor);
      AddUnits(target[k]);
    }
    return Ok(data), spent;
  }

  // ----- replacing one symbol by its bytes

  /** Drops the symbol from the coefficients and adds its contribution to the data. */
  function Substituted(row: Row, id: Id, source: Bytes): Row {
    var f := Coef(row.coefficients, id);
    if f == 0 then row
    else Row(AddTerm(row.coefficients, id, f), AddBytes(row.data, source, f))
  }

  function SubstitutedAll(rows: seq<Row>, id: Id, source: Bytes): (r: seq<Row>)
    ensures |r| == |rows|
  {
    seq(|rows|, i requires 0 <= i < |rows| => Substituted(rows[i], id, source))
  }

  ghost predicate Agrees(x: Assignment, id: Id, source: Bytes) {
    forall j: nat :: Cell(x, id, j) == At(source, j)
  }

  lemma SubstitutedSat(row: Row, id: Id, source: Bytes, x: Assignment)
    requires Agrees(x, id, source)
    ensures Sat(Substituted(row, id, source), x) <==> Sat(row, x)
  {
    hide Add, Mul, Dot, At, Coef, AddTerm, AddBytes, Cell;
    var f := Coef(row.coefficients, id);
    if f != 0 {
      var r := Substituted(row, id, source);
      forall j: nat
        ensures Dot(r.coefficients, x, j) == At(r.data, j) <==> Dot(row.coefficients, x, j) == At(row.data, j)
      {
        var v := Cell(x, id, j);
        AddTermDot(row.coefficients, id, f, x, j);
        AddedAt(row.data, source, f, j);
        MulCommutes(f, v);
        AddCancels(Dot(row.coefficients, x, j), Mul(v, f));
        AddCancels(At(row.data, j), Mul(v, f));
      }
    }
  }

  lemma SubstitutedNormal(row: Row, id: Id, source: Bytes)
    requires Normal(row.coefficients)
    ensures Normal(Substituted(row, id, source).coefficients)
    ensures Ids(Substituted(row, id, source).coefficients) == Ids(row.coefficients) - {id}
    ensures |Substituted(row, id, source).data| >= |row.data|
    ensures |source| <= |row.data| ==> |Substituted(row, id, source).data| == |row.data|
  {
    hide Add, Mul, Coef, AddTerm;
    var f := Coef(row.coefficients, id);
    CoefNonzero(row.coefficients, id);
    if f != 0 {
      var terms := AddTerm(row.coefficients, id, f);
      AddTermNormal(row.coefficients, id, f);
      AddUnits(f);
      forall k: Id ensures k in Ids(terms) <==> k in Ids(row.coefficients) && k != id {
        AddTermCoef(row.coefficients, id, f, k);
        CoefNonzero(terms, k);
        CoefNonzero(row.coefficients, k);
      }
    }
  }

  lemma SubstitutedAllFacts(rows: seq<Row>, id: Id, source: Bytes)
    requires AllNormal(rows)
    ensures AllNormal(SubstitutedAll(rows, id, source))
    ensures AllIds(SubstitutedAll(rows, id, source)) == AllIds(rows) - {id}
  {
    hide Normal, Substituted;
    var r := SubstitutedAll(rows, id, source);
    forall i | 0 <= i < |rows|
      ensures Normal(r[i].coefficients) && Ids(r[i].coefficients) == Ids(rows[i].coefficients) - {id}
    {
      SubstitutedNormal(rows[i], id, source);
    }
    IdsOfAll(rows);
    IdsOfAll(r);
  }

  lemma IdsOfAll(rows: seq<Row>)
    ensures forall k :: k in AllIds(rows) <==> exists i :: 0 <= i < |rows| && k in Ids(rows[i].coefficients)
  {
    forall k | k in AllIds(rows) ensures exists i :: 0 <= i < |rows| && k in Ids(rows[i].coefficients) {
      var i, t :| 0 <= i < |rows| && 0 <= t < |rows[i].coefficients| && rows[i].coefficients[t].0 == k;
      assert k in Ids(rows[i].coefficients);
    }
  }

  lemma SubstitutedAllSat(rows: seq<Row>, id: Id, source: Bytes, x: Assignment)
    requires Agrees(x, id, source)
    ensures SatAll(SubstitutedAll(rows, id, source), x) <==> SatAll(rows, x)
  {
    hide Sat, Substituted;
    var r := SubstitutedAll(rows, id, source);
    forall i | 0 <= i < |rows| ensures Sat(r[i], x) <==> Sat(rows[i], x) {
      SubstitutedSat(rows[i], id, source, x);
    }
    if SatAll(r, x) {
      forall i | 0 <= i < |rows| ensures Sat(rows[i], x) {
        assert Sat(r[i], x);
      }
    }
  }

  lemma SubstitutedCovers(rows: seq<Row>, id: Id, source: Bytes, x: Assignment)
    requires AllNormal(rows) && Covers(rows, x)
    ensures Covers(SubstitutedAll(rows, id, source), x)
  {
    hide Normal, Substituted;
    var r := SubstitutedAll(rows, id, source);
    forall i, k | 0 <= i < |r| && k in Ids(r[i].coefficients) && k in x ensures |x[k]| <= |r[i].data| {
      SubstitutedNormal(rows[i], id, source);
      assert k in Ids(rows[i].coefficients);
    }
  }

  /** The work of replacing a symbol by `size` bytes wherever it occurs. */
  function SubstitutionCost(rows: seq<Row>, id: Id, size: nat): nat {
    if rows == [] then 0
    else
      var n := |rows| - 1;
      SubstitutionCost(rows[..n], id, size) + if id in Ids(rows[n].coefficients) then size else 0
  }

  lemma {:induction false} SubstitutionCostGrows(rows: seq<Row>, id: Id, size: nat, i: nat)
    requires i <= |rows|
    ensures SubstitutionCost(rows[..i], id, size) <= SubstitutionCost(rows, id, size)
    ensures i < |rows| ==>
      SubstitutionCost(rows[..i + 1], id, size)
        == SubstitutionCost(rows[..i], id, size) + (if id in Ids(rows[i].coefficients) then size else 0)
    decreases |rows| - i
  {
    hide Ids;
    if i < |rows| {
      assert rows[..i + 1][..i] == rows[..i];
      SubstitutionCostGrows(rows, id, size, i + 1);
    } else {
      assert rows[..i] == rows;
    }
  }

  lemma {:induction false} SubstitutionCostBound(rows: seq<Row>, id: Id, size: nat)
    ensures SubstitutionCost(rows, id, size) <= |rows| * size
  {
    hide Ids;
    if rows != [] {
      var n := |rows| - 1;
      SubstitutionCostBound(rows[..n], id, size);
      assert |rows| * size == n * size + size;
    }
  }

  /** Some row that mentions the symbol is too short for the bytes. */
  ghost predicate TooShort(rows: seq<Row>, id: Id, size: nat) {
    exists i :: 0 <= i < |rows| && id in Ids(rows[i].coefficients) && |rows[i].data| < size
  }

  /** src/fec.rs, the substitution loop of `add_source`. */
  method SubstituteSource(rows: seq<Row>, id: Id, source: Bytes, work: nat, budget: nat)
    returns (res: Result<seq<Row>, FecError>, spent: nat)
    requires AllNormal(rows) && work <= budget
    ensures res.Ok? <==> !TooShort(rows, id, |source|) && work + SubstitutionCost(rows, id, |source|) <= budget
    ensures res.Ok? ==> res.value == SubstitutedAll(rows, id, source)
    ensures res.Ok? ==> spent == work + SubstitutionCost(rows, id, |source|)
    ensures res.Err? ==> res.error == InvalidSymbolSize || res.error == WorkBudget
    ensures res == Err(WorkBudget) ==> work + SubstitutionCost(rows, id, |source|) > budget
    ensures res.Ok? ==> forall i :: 0 <= i < |rows| ==> |res.value[i].data| == |rows[i].data|
    ensures res == Err(InvalidSymbolSize) ==> TooShort(rows, id, |source|)
  {
    hide Add, Mul, Coef, SubstitutionCost, Ids, Substituted, Normal;
    spent := work;
    var r := rows;
    var i := 0;
    NoSubstitution(rows, id, |source|);
    while i < |rows|
      invariant 0 <= i <= |rows| == |r|
      invariant spent == work + SubstitutionCost(rows[..i], id, |source|) <= budget
      invariant forall k :: 0 <= k < i ==> !(id in Ids(rows[k].coefficients) && |rows[k].data| < |source|)
      invariant forall k :: 0 <= k < i ==> r[k] == Substituted(rows[k], id, source) && |r[k].data| == |rows[k].data|
      invariant forall k :: i <= k < |rows| ==> r[k] == rows[k]
    {
      SubstitutionCostGrows(rows, id, |source|, i);
      SubstitutionCostGrows(rows, id, |source|, i + 1);
      var row;
      row, spent := SubstituteRow(r[i], id, source, spent, budget);
      if row.Err? {
        return Err(row.error), spent;
      }
      r := r[i := row.value];
      i := i + 1;
    }
    assert r == SubstitutedAll(rows, id, source) && rows[..i] == rows;
    return Ok(r), spent;
  }

  /** The body of that loop: the symbol leaves the row, whose data takes its share. */
  method SubstituteRow(row: Row, id: Id, source: Bytes, work: nat, budget: nat)
    returns (res: Result<Row, FecError>, spent: nat)
    requires Normal(row.coefficients) && work <= budget
    ensures res == Err(InvalidSymbolSize) <==> id in Ids(row.coefficients) && |row.data| < |source|
    ensures res == Err(WorkBudget) <==>
      id in Ids(row.coefficients) && |source| <= |row.data| && work + |source| > budget
    ensures res.Err? ==> res.error == InvalidSymbolSize || res.error == WorkBudget
    ensures res.Ok? ==> res.value == Substituted(row, id, source) && |res.value.data| == |row.data|
    ensures res.Ok? ==> spent == work + if id in Ids(row.coefficients) then |source| else 0
  {
    hide Add, Mul, Coef;
    var terms := row.coefficients;
    var found, index := FindTerm(terms, id);
    if !found {
      CoefAbsent(terms, id);
      return Ok(row), work;
    }
    var factor := terms[index].1;
    CoefAt(terms, index);
    AddTermFound(terms, id, factor, index);
    AddUnits(factor);
    assert id in Ids(terms);
    var data;
    data, spent := XorScaled(row.data, source, factor, work, budget);
    if data.Err? {
      return Err(data.error), spent;
    }
    return Ok(Row(terms[..index] + terms[index + 1..], data.value)), spent;
  }

  lemma NoSubstitution(rows: seq<Row>, id: Id, size: nat)
    ensures SubstitutionCost(rows[..0], id, size) == 0
  {
  }

  // ----- the known window

  datatype KnownSource = KnownSource(symbolId: Id, bytes: Bytes, retained: nat)

  /** src/fec.rs, `known_source`: the first entry for a symbol. */
  function Lookup(known: seq<KnownSource>, id: Id): (r: Option<Bytes>)
    ensures r.None? <==> forall i :: 0 <= i < |known| ==> known[i].symbolId != id
    ensures r.Some? ==> exists i :: 0 <= i < |known| && known[i].symbolId == id && known[i].bytes == r.value
  {
    if known == [] then None
    else if known[0].symbolId == id then Some(known[0].bytes)
    else
      var r := Lookup(known[1..], id);
      assert forall i :: 0 <= i < |known[1..]| ==> known[1..][i] == known[i + 1];
      r
  }

  ghost predicate KnownAgree(known: seq<KnownSource>, x: Assignment) {
    forall i :: 0 <= i < |known| ==> Agrees(x, known[i].symbolId, known[i].bytes)
  }

  // ----- sorting a coefficient list with distinct symbols

  ghost predicate Distinct(terms: Terms) {
    forall i, j :: 0 <= i < j < |terms| ==> terms[i].0 != terms[j].0
  }

  /** src/fec.rs, `sort_unstable_by_key`: ordered insertion, term by term. */
  function SortTerms(terms: Terms): Terms {
    AddTerms([], terms, 1)
  }

  lemma {:induction false} InsertAbsent(terms: Terms, id: Id, v: byte)
    requires id !in Ids(terms)
    ensures multiset(AddTerm(terms, id, v)) == multiset(terms) + multiset{(id, v)}
  {
    if terms == [] || id < terms[0].0 {
    } else {
      assert terms[0].0 in Ids(terms);
      assert terms == [terms[0]] + terms[1..];
      IdsCons(terms[0], terms[1..]);
      InsertAbsent(terms[1..], id, v);
    }
  }

  lemma {:induction false} SortTermsSorts(terms: Terms)
    requires Nonzero(terms) && Distinct(terms)
    ensures Normal(SortTerms(terms))
    ensures multiset(SortTerms(terms)) == multiset(terms)
    ensures Ids(SortTerms(terms)) == Ids(terms)
  {
    if terms != [] {
      hide Add, Mul, AddTerm, Normal;
      var n := |terms| - 1;
      var init := terms[..n];
      SortTermsSorts(init);
      assert terms == init + [terms[n]];
      assert terms[n].0 !in Ids(init);
      MulUnits(terms[n].1);
      InsertAbsent(SortTerms(init), terms[n].0, terms[n].1);
      AddTermNormal(SortTerms(init), terms[n].0, terms[n].1);
    }
    SameIds(SortTerms(terms), terms);
  }

  lemma SameIds(a: Terms, b: Terms)
    requires multiset(a) == multiset(b)
    ensures Ids(a) == Ids(b)
  {
    forall id | id in Ids(a) ensures id in Ids(b) {
      var i :| 0 <= i < |a| && a[i].0 == id;
      assert a[i] in multiset(b);
    }
    forall id | id in Ids(b) ensures id in Ids(a) {
      var i :| 0 <= i < |b| && b[i].0 == id;
      assert b[i] in multiset(a);
    }
  }

  lemma SortTermsDot(terms: Terms, x: Assignment, j: nat)
    ensures Dot(SortTerms(terms), x, j) == Dot(terms, x, j)
  {
    hide Add, Mul, AddTerms;
    AddTermsDot([], terms, 1, x, j);
    MulUnits(Dot(terms, x, j));
    AddUnits(Dot(terms, x, j));
  }

  // ----- the equation of a received repair

  /** The first i terms of a repair, with known symbols moved into the data. */
  ghost predicate Balanced(known: seq<KnownSource>, all: Terms, i: nat, coded: Bytes, terms: Terms, data: Bytes)
    requires i <= |all|
  {
    forall x, j: nat :: KnownAgree(known, x) ==>
      Add(Dot(terms, x, j), At(data, j)) == Add(Dot(all[..i], x, j), At(coded, j))
  }

  lemma BalanceKnown(known: seq<KnownSource>, all: Terms, i: nat, coded: Bytes, terms: Terms, data: Bytes, k: nat)
    requires i < |all| && Balanced(known, all, i, coded, terms, data)
    requires k < |known| && known[k].symbolId == all[i].0
    ensures Balanced(known, all, i + 1, coded, terms, AddBytes(data, known[k].bytes, all[i].1))
  {
    hide Add, Mul, Dot, At, AddBytes, Cell;
    var (id, c) := all[i];
    forall x, j: nat | KnownAgree(known, x)
      ensures Add(Dot(terms, x, j), At(AddBytes(data, known[k].bytes, c), j)) ==
              Add(Dot(all[..i + 1], x, j), At(coded, j))
    {
      var v := Mul(c, Cell(x, id, j));
      assert Agrees(x, id, known[k].bytes);
      AddedAt(data, known[k].bytes, c, j);
      MulCommutes(c, Cell(x, id, j));
      assert all[..i + 1] == all[..i] + [all[i]];
      DotConcat(all[..i], [all[i]], x, j);
      DotSingle(id, c, x, j);
      AddAssociates(Dot(terms, x, j), At(data, j), v);
      AddAssociates(Dot(all[..i], x, j), v, At(coded, j));
      AddCommutes(v, At(coded, j));
      AddAssociates(Dot(all[..i], x, j), At(coded, j), v);
    }
  }

  lemma BalanceUnknown(known: seq<KnownSource>, all: Terms, i: nat, coded: Bytes, terms: Terms, data: Bytes)
    requires i < |all| && Balanced(known, all, i, coded, terms, data)
    ensures Balanced(known, all, i + 1, coded, terms + [all[i]], data)
  {
    hide Add, Mul, Dot, At, Cell;
    forall x, j: nat | KnownAgree(known, x)
      ensures Add(Dot(terms + [all[i]], x, j), At(data, j)) == Add(Dot(all[..i + 1], x, j), At(coded, j))
    {
      var v := Dot([all[i]], x, j);
      assert all[..i + 1] == all[..i] + [all[i]];
      DotConcat(all[..i], [all[i]], x, j);
      DotConcat(terms, [all[i]], x, j);
      AddAssociates(Dot(terms, x, j), v, At(data, j));
      AddCommutes(v, At(data, j));
      AddAssociates(Dot(terms, x, j), At(data, j), v);
      AddAssociates(Dot(all[..i], x, j), v, At(coded, j));
      AddCommutes(v, At(coded, j));
      AddAssociates(Dot(all[..i], x, j), At(coded, j), v);
    }
  }

  // With all terms moved, the row holds exactly when the repair equation does.
  lemma BalancedSat(known: seq<KnownSource>, all: Terms, coded: Bytes, terms: Terms, data: Bytes, x: Assignment)
    requires Balanced(known, all, |all|, coded, terms, data) && KnownAgree(known, x)
    ensures Sat(Row(SortTerms(terms), data), x) <==> Sat(Row(all, coded), x)
  {
    hide Add, Mul, Dot, At, SortTerms;
    assert all[..|all|] == all;
    forall j: nat
      ensures Dot(SortTerms(terms), x, j) == At(data, j) <==> Dot(all, x, j) == At(coded, j)
    {
      SortTermsDot(terms, x, j);
      AddCancels(Dot(terms, x, j), At(data, j));
      AddCancels(Dot(all, x, j), At(coded, j));
    }
  }

  /** The work of moving the known symbols among the first n of a span into the data. */
  function BuildCost(known: seq<KnownSource>, first: Id, n: nat): nat {
    if n == 0 then 0
    else
      var source := Lookup(known, SymbolId(first, n - 1));
      BuildCost(known, first, n - 1) + if source.Some? then |source.value| else 0
  }

  lemma {:induction false} BuildCostGrows(known: seq<KnownSource>, first: Id, m: nat, n: nat)
    requires m <= n
    ensures BuildCost(known, first, m) <= BuildCost(known, first, n)
    decreases n
  {
    hide Lookup;
    if m < n {
      BuildCostGrows(known, first, m, n - 1);
    }
  }

  lemma {:induction false} BuildCostBound(known: seq<KnownSource>, first: Id, n: nat, max: nat)
    requires forall i :: 0 <= i < |known| ==> |known[i].bytes| <= max
    ensures BuildCost(known, first, n) <= n * max
  {
    if n > 0 {
      BuildCostBound(known, first, n - 1, max);
      assert n * max == (n - 1) * max + max;
    }
  }

  /** Some known symbol of the span is longer than the repair. */
  ghost predicate TooLong(known: seq<KnownSource>, first: Id, span: nat, size: nat) {
    exists i :: 0 <= i < span
      && Lookup(known, SymbolId(first, i)).Some? && |Lookup(known, SymbolId(first, i)).value| > size
  }

  /** src/fec.rs, the row that `add_repair` builds, with room for `columns` coefficients and `max` bytes. */
  method BuildRow(known: seq<KnownSource>, first: Id, span: nat, repairId: Id, seed: Id, coded: Bytes, columns: nat,
                  max: nat, work: nat, budget: nat)
    returns (res: Result<Row, FecError>, spent: nat)
    requires 1 <= span <= MAX_REPAIR_SPAN && span <= columns && |coded| <= max && work <= budget
    ensures res.Ok? <==> !TooLong(known, first, span, |coded|) && work + BuildCost(known, first, span) <= budget
    ensures res.Ok? ==> spent == work + BuildCost(known, first, span)
    ensures res == Err(WorkBudget) ==> work + BuildCost(known, first, span) > budget
    ensures res.Err? ==> res.error == InvalidSymbolSize || res.error == WorkBudget
    ensures res == Err(InvalidSymbolSize) ==> TooLong(known, first, span, |coded|)
    ensures res.Ok? ==> Normal(res.value.coefficients) && |res.value.data| == |coded|
    ensures res.Ok? ==> |res.value.coefficients| <= span
    ensures res.Ok? ==> forall id :: id in Ids(res.value.coefficients) ==>
      Lookup(known, id).None? && exists i :: 0 <= i < span && id == SymbolId(first, i)
    ensures res.Ok? ==> forall x :: KnownAgree(known, x) ==>
      (Sat(res.value, x) <==> Sat(Row(RepairTerms(first, span, repairId, seed), coded), x))
  {
    hide Add, Mul, Coefficient, Sat, KnownAgree, Balanced, BuildCost, Lookup, Nonzero, Distinct, TooLong;
    ghost var all := RepairTerms(first, span, repairId, seed);
    var terms: Terms := [];
    var data := Copy(coded, max);
    spent := work;
    GatherStart(known, all, first, coded);
    var ordinal := 0;
    while ordinal < span
      invariant 0 <= ordinal <= span
      invariant spent == work + BuildCost(known, first, ordinal) <= budget
      invariant Gathered(known, first, ordinal, terms) && |terms| <= ordinal
      invariant Balanced(known, all, ordinal, coded, terms, data) && |data| == |coded|
      invariant !TooLong(known, first, ordinal, |coded|)
    {
      var id := SymbolId(first, ordinal);
      var value := Coefficient(seed, repairId, id);
      var source := Lookup(known, id);
      BuildCostGrows(known, first, ordinal + 1, span);
      BuildCostNext(known, first, ordinal);
      TooLongNext(known, first, ordinal, span, |coded|);
      GatherNext(known, first, ordinal, terms, value);
      if source.Some? {
        ghost var k := KnownAt(known, id);
        BalanceKnown(known, all, ordinal, coded, terms, data, k);
        var sum;
        sum, spent := XorScaled(data, source.value, value, spent, budget);
        if sum.Err? {
          return Err(sum.error), spent;
        }
        data := sum.value;
      } else {
        BalanceUnknown(known, all, ordinal, coded, terms, data);
        terms := Push(terms, (id, value), columns);
      }
      ordinal := ordinal + 1;
    }
    GatheredSorts(known, first, span, terms);
    forall x | KnownAgree(known, x)
      ensures Sat(Row(SortTerms(terms), data), x) <==> Sat(Row(all, coded), x)
    {
      BalancedSat(known, all, coded, terms, data, x);
    }
    return Ok(Row(SortTerms(terms), data)), spent;
  }

  /** The terms of the unknown symbols among the first n of a span. */
  ghost predicate Gathered(known: seq<KnownSource>, first: Id, n: nat, terms: Terms) {
    && Nonzero(terms) && Distinct(terms)
    && forall t :: 0 <= t < |terms| ==>
      Lookup(known, terms[t].0).None? && exists i :: 0 <= i < n && terms[t].0 == SymbolId(first, i)
  }

  lemma GatherStart(known: seq<KnownSource>, all: Terms, first: Id, coded: Bytes)
    ensures Gathered(known, first, 0, []) && Balanced(known, all, 0, coded, [], coded)
    ensures BuildCost(known, first, 0) == 0 && !TooLong(known, first, 0, |coded|)
  {
    assert all[..0] == [];
  }

  lemma GatherNext(known: seq<KnownSource>, first: Id, n: nat, terms: Terms, value: byte)
    requires Gathered(known, first, n, terms) && n < MAX_REPAIR_SPAN && value != 0
    ensures Gathered(known, first, n + 1, terms)
    ensures Lookup(known, SymbolId(first, n)).None? ==>
      Gathered(known, first, n + 1, terms + [(SymbolId(first, n), value)])
  {
    hide Lookup;
    var id := SymbolId(first, n);
    forall t | 0 <= t < |terms| ensures terms[t].0 != id {
      var i :| 0 <= i < n && terms[t].0 == SymbolId(first, i);
      SpanDistinct(first, i, n);
    }
    forall t | 0 <= t < |terms| ensures exists i :: 0 <= i < n + 1 && terms[t].0 == SymbolId(first, i) {
      var i :| 0 <= i < n && terms[t].0 == SymbolId(first, i);
    }
    assert exists i :: 0 <= i < n + 1 && id == SymbolId(first, i);
  }

  lemma GatheredSorts(known: seq<KnownSource>, first: Id, n: nat, terms: Terms)
    requires Gathered(known, first, n, terms)
    ensures Normal(SortTerms(terms)) && |SortTerms(terms)| == |terms|
    ensures forall id :: id in Ids(SortTerms(terms)) ==>
      Lookup(known, id).None? && exists i :: 0 <= i < n && id == SymbolId(first, i)
  {
    hide Lookup;
    SortTermsSorts(terms);
    assert |SortTerms(terms)| == |multiset(SortTerms(terms))| == |terms|;
  }

  lemma BuildCostNext(known: seq<KnownSource>, first: Id, n: nat)
    ensures var source := Lookup(known, SymbolId(first, n));
      BuildCost(known, first, n + 1) == BuildCost(known, first, n) + if source.Some? then |source.value| else 0
  {
    hide Lookup;
  }

  lemma TooLongNext(known: seq<KnownSource>, first: Id, n: nat, span: nat, size: nat)
    requires n < span
    ensures var source := Lookup(known, SymbolId(first, n));
      && (source.Some? && |source.value| > size ==> TooLong(known, first, span, size))
      && (!TooLong(known, first, n, size) && !(source.Some? && |source.value| > size) ==>
           !TooLong(known, first, n + 1, size))
  {
    hide Lookup;
  }

  lemma KnownAt(known: seq<KnownSource>, id: Id) returns (k: nat)
    requires Lookup(known, id).Some?
    ensures k < |known| && known[k].symbolId == id && known[k].bytes == Lookup(known, id).value
  {
    k :| 0 <= k < |known| && known[k].symbolId == id && known[k].bytes == Lookup(known, id).value;
  }
}
