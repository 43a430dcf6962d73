/** Sparse coefficient rows of the repair decoder (src/fec.rs) and the equations they stand for. */
module Rows {
  import opened Galois

  type Id = x: int | 0 <= x < 0x1_0000_0000
  type Bytes = seq<byte>
  type Terms = seq<(Id, byte)>

  datatype Row = Row(coefficients: Terms, data: Bytes)

  /** Values proposed for the unknown symbols. A missing symbol, or a byte past its end, is zero. */
  type Assignment = map<Id, Bytes>

  function At(data: Bytes, j: nat): byte {
    if j < |data| then data[j] else 0
  }

  function Cell(x: Assignment, id: Id, j: nat): byte {
    if id in x then At(x[id], j) else 0
  }

  /** Column j of the left-hand side of an equation. */
  function Dot(terms: Terms, x: Assignment, j: nat): byte {
    if terms == [] then 0
    else Add(Mul(terms[0].1, Cell(x, terms[0].0, j)), Dot(terms[1..], x, j))
  }

  ghost predicate Sat(row: Row, x: Assignment) {
    forall j: nat :: Dot(row.coefficients, x, j) == At(row.data, j)
  }

  ghost predicate SatAll(rows: seq<Row>, x: Assignment) {
    forall i :: 0 <= i < |rows| ==> Sat(rows[i], x)
  }

  // ----- the shape of a coefficient list

  predicate Sorted(terms: Terms) {
    forall i, j :: 0 <= i < j < |terms| ==> terms[i].0 < terms[j].0
  }

  predicate Nonzero(terms: Terms) {
    forall i :: 0 <= i < |terms| ==> terms[i].1 != 0
  }

  predicate Normal(terms: Terms) {
    Sorted(terms) && Nonzero(terms)
  }

  function Ids(terms: Terms): set<Id> {
    set i | 0 <= i < |terms| :: terms[i].0
  }

  function Coef(terms: Terms, id: Id): byte {
    if terms == [] then 0
    else if terms[0].0 == id then terms[0].1
    else Coef(terms[1..], id)
  }

  lemma {:induction false} CoefAt(terms: Terms, i: nat)
    requires Sorted(terms) && i < |terms|
    ensures Coef(terms, terms[i].0) == terms[i].1
  {
    if i != 0 {
      CoefAt(terms[1..], i - 1);
    }
  }

  lemma {:induction false} CoefAbsent(terms: Terms, id: Id)
    requires id !in Ids(terms)
    ensures Coef(terms, id) == 0
  {
    if terms != [] {
      assert terms[0].0 in Ids(terms);
      assert forall i :: 0 <= i < |terms[1..]| ==> terms[1..][i] == terms[i + 1] && terms[i + 1].0 in Ids(terms);
      CoefAbsent(terms[1..], id);
    }
  }

  lemma CoefNonzero(terms: Terms, id: Id)
    requires Normal(terms)
    ensures Coef(terms, id) != 0 <==> id in Ids(terms)
  {
    if id in Ids(terms) {
      var i :| 0 <= i < |terms| && terms[i].0 == id;
      CoefAt(terms, i);
    } else {
      CoefAbsent(terms, id);
    }
  }

  lemma {:induction false} DotConcat(a: Terms, b: Terms, x: Assignment, j: nat)
    ensures Dot(a + b, x, j) == Add(Dot(a, x, j), Dot(b, x, j))
  {
    hide Add, Mul, Cell;
    if a == [] {
      assert a + b == b;
      AddUnits(Dot(b, x, j));
    } else {
      assert (a + b)[1..] == a[1..] + b;
      DotConcat(a[1..], b, x, j);
      AddAssociates(Mul(a[0].1, Cell(x, a[0].0, j)), Dot(a[1..], x, j), Dot(b, x, j));
    }
  }

  lemma DotSingle(id: Id, c: byte, x: Assignment, j: nat)
    ensures Dot([(id, c)], x, j) == Mul(c, Cell(x, id, j))
  {
    hide Add, Mul, Cell;
    AddUnits(Mul(c, Cell(x, id, j)));
    assert Dot([(id, c)][1..], x, j) == 0;
  }

  // Terms whose symbols are all zero contribute nothing.
  lemma {:induction false} DotZero(terms: Terms, x: Assignment, j: nat)
    requires forall i :: 0 <= i < |terms| ==> Cell(x, terms[i].0, j) == 0
    ensures Dot(terms, x, j) == 0
  {
    if terms != [] {
      hide Add, Mul, Cell;
      DotZero(terms[1..], x, j);
      MulUnits(terms[0].1);
      AddUnits(0);
    }
  }

  // ----- scaling a row

  function ScaleTerms(terms: Terms, f: byte): (r: Terms) {
    seq(|terms|, i requires 0 <= i < |terms| => (terms[i].0, Mul(terms[i].1, f)))
  }

  function ScaleBytes(data: Bytes, f: byte): (r: Bytes) {
    seq(|data|, i requires 0 <= i < |data| => Mul(data[i], f))
  }

  function Scaled(row: Row, f: byte): Row {
    Row(ScaleTerms(row.coefficients, f), ScaleBytes(row.data, f))
  }

  lemma {:induction false} DotScaled(terms: Terms, f: byte, x: Assignment, j: nat)
    ensures Dot(ScaleTerms(terms, f), x, j) == Mul(Dot(terms, x, j), f)
  {
    hide Add, Mul, Cell;
    if terms == [] {
      MulUnits(f);
    } else {
      assert ScaleTerms(terms, f)[1..] == ScaleTerms(terms[1..], f);
      DotScaled(terms[1..], f, x, j);
      var c, v := terms[0].1, Cell(x, terms[0].0, j);
      MulAddsLeft(Mul(c, v), Dot(terms[1..], x, j), f);
      MulAssociates(c, f, v); MulCommutes(f, v); MulAssociates(c, v, f);
    }
  }

  lemma ScaledAt(data: Bytes, f: byte, j: nat)
    ensures At(ScaleBytes(data, f), j) == Mul(At(data, j), f)
  {
    MulUnits(f);
  }

  lemma ScaledNormal(terms: Terms, f: byte)
    requires Normal(terms) && f != 0
    ensures Normal(ScaleTerms(terms, f)) && Ids(ScaleTerms(terms, f)) == Ids(terms)
  {
    hide Mul;
    var r := ScaleTerms(terms, f);
    assert forall i :: 0 <= i < |terms| ==> r[i].0 == terms[i].0;
    forall i | 0 <= i < |r| ensures r[i].1 != 0 {
      MulNonzero(terms[i].1, f);
    }
  }

  lemma MulCancels(a: byte, b: byte, f: byte)
    requires f != 0
    ensures Mul(a, f) == Mul(b, f) <==> a == b
  {
    hide *;
    MulAssociates(a, f, Inv(f)); MulAssociates(b, f, Inv(f));
    MulUnits(a); MulUnits(b);
  }

  lemma ScaledSat(row: Row, f: byte, x: Assignment)
    requires f != 0
    ensures Sat(Scaled(row, f), x) <==> Sat(row, x)
  {
    hide Mul, Dot, At, ScaleTerms, ScaleBytes;
    forall j: nat
      ensures Dot(Scaled(row, f).coefficients, x, j) == At(Scaled(row, f).data, j)
         <==> Dot(row.coefficients, x, j) == At(row.data, j)
    {
      DotScaled(row.coefficients, f, x, j);
      ScaledAt(row.data, f, j);
      MulCancels(Dot(row.coefficients, x, j), At(row.data, j), f);
    }
  }

  // ----- adding a multiple of one row to another

  /** Adds `v` to the coefficient of `id`, dropping the entry if it becomes zero. */
  function AddTerm(terms: Terms, id: Id, v: byte): Terms {
    if terms == [] || id < terms[0].0 then [(id, v)] + terms
    else if terms[0].0 == id then
      var c := Add(terms[0].1, v);
      if c == 0 then terms[1..] else [(id, c)] + terms[1..]
    else [terms[0]] + AddTerm(terms[1..], id, v)
  }

  function AddTerms(terms: Terms, source: Terms, f: byte): Terms {
    if source == [] then terms
    else
      var last := source[|source| - 1];
      AddTerm(AddTerms(terms, source[..|source| - 1], f), last.0, Mul(last.1, f))
  }

  function Max(a: nat, b: nat): nat {
    if a < b then b else a
  }

  function AddBytes(data: Bytes, source: Bytes, f: byte): (r: Bytes) {
    seq(Max(|data|, |source|), i requires 0 <= i => Add(At(data, i), Mul(At(source, i), f)))
  }

  function Combined(target: Row, source: Row, f: byte): Row {
    Row(AddTerms(target.coefficients, source.coefficients, f), AddBytes(target.data, source.data, f))
  }

  lemma IdsCons(head: (Id, byte), tail: Terms)
    ensures Ids([head] + tail) == {head.0} + Ids(tail)
  {
    var all := [head] + tail;
    assert all[0] == head && forall i :: 0 <= i < |tail| ==> all[i + 1] == tail[i];
    forall id | id in {head.0} + Ids(tail) ensures id in Ids(all) {
      if id != head.0 {
        var i :| 0 <= i < |tail| && tail[i].0 == id;
        assert all[i + 1].0 == id;
      }
    }
  }

  lemma SortedCons(head: (Id, byte), tail: Terms)
    requires Normal(tail) && head.1 != 0
    requires forall id :: id in Ids(tail) ==> head.0 < id
    ensures Normal([head] + tail)
  {
    assert forall i :: 0 <= i < |tail| ==> tail[i].0 in Ids(tail);
  }

  lemma TailNormal(terms: Terms)
    requires Normal(terms) && terms != []
    ensures Normal(terms[1..]) && terms == [terms[0]] + terms[1..]
    ensures Ids(terms) == {terms[0].0} + Ids(terms[1..])
    ensures forall id :: id in Ids(terms[1..]) ==> terms[0].0 < id
  {
    assert terms == [terms[0]] + terms[1..];
    IdsCons(terms[0], terms[1..]);
  }

  lemma {:induction false} AddTermNormal(terms: Terms, id: Id, v: byte)
    requires Normal(terms) && v != 0
    ensures Normal(AddTerm(terms, id, v))
    ensures Ids(AddTerm(terms, id, v)) <= Ids(terms) + {id}
  {
    hide Add;
    if terms == [] || id < terms[0].0 {
      IdsCons((id, v), terms);
      SortedCons((id, v), terms);
    } else {
      TailNormal(terms);
      if terms[0].0 == id {
        var c := Add(terms[0].1, v);
        if c != 0 {
          IdsCons((id, c), terms[1..]);
          SortedCons((id, c), terms[1..]);
        }
      } else {
        AddTermNormal(terms[1..], id, v);
        IdsCons(terms[0], AddTerm(terms[1..], id, v));
        SortedCons(terms[0], AddTerm(terms[1..], id, v));
      }
    }
  }

  lemma CoefCons(head: (Id, byte), tail: Terms, id: Id)
    ensures Coef([head] + tail, id) == if head.0 == id then head.1 else Coef(tail, id)
  {
    assert ([head] + tail)[1..] == tail;
  }

  lemma {:induction false} AddTermCoef(terms: Terms, id: Id, v: byte, k: Id)
    requires Normal(terms)
    ensures Coef(AddTerm(terms, id, v), k) == if k == id then Add(Coef(terms, id), v) else Coef(terms, k)
  {
    hide Add;
    AddUnits(v);
    if terms == [] || id < terms[0].0 {
      CoefCons((id, v), terms, k);
      CoefNonzero(terms, id);
    } else {
      TailNormal(terms);
      if terms[0].0 == id {
        var c := Add(terms[0].1, v);
        if c != 0 {
          CoefCons((id, c), terms[1..], k);
        } else {
          CoefAbsent(terms[1..], id);
        }
      } else {
        AddTermCoef(terms[1..], id, v, k);
        CoefCons(terms[0], AddTerm(terms[1..], id, v), k);
      }
    }
  }

  lemma DotCons(head: (Id, byte), tail: Terms, x: Assignment, j: nat)
    ensures Dot([head] + tail, x, j) == Add(Mul(head.1, Cell(x, head.0, j)), Dot(tail, x, j))
  {
    assert ([head] + tail)[1..] == tail;
  }

  lemma {:induction false} AddTermDot(terms: Terms, id: Id, v: byte, x: Assignment, j: nat)
    ensures Dot(AddTerm(terms, id, v), x, j) == Add(Dot(terms, x, j), Mul(v, Cell(x, id, j)))
  {
    hide Add, Mul, Cell;
    var w := Cell(x, id, j);
    if terms == [] || id < terms[0].0 {
      DotCons((id, v), terms, x, j);
      AddCommutes(Dot(terms, x, j), Mul(v, w));
    } else {
      var head, tail := terms[0], terms[1..];
      var d := Dot(tail, x, j);
      var h := Mul(head.1, Cell(x, head.0, j));
      AddAssociates(h, d, Mul(v, w)); AddCommutes(d, Mul(v, w)); AddAssociates(h, Mul(v, w), d);
      if head.0 == id {
        MulAddsLeft(head.1, v, w);
        MulUnits(w);
        AddUnits(d);
        DotCons((id, Add(head.1, v)), tail, x, j);
      } else {
        AddTermDot(tail, id, v, x, j);
        DotCons(head, AddTerm(tail, id, v), x, j);
      }
    }
  }

  lemma {:induction false} AddTermsNormal(terms: Terms, source: Terms, f: byte)
    requires Normal(terms) && Nonzero(source) && f != 0
    ensures Normal(AddTerms(terms, source, f))
    ensures Ids(AddTerms(terms, source, f)) <= Ids(terms) + Ids(source)
  {
    if source != [] {
      hide Add, Mul, AddTerm;
      var n := |source| - 1;
      AddTermsNormal(terms, source[..n], f);
      MulNonzero(source[n].1, f);
      AddTermNormal(AddTerms(terms, source[..n], f), source[n].0, Mul(source[n].1, f));
      assert forall i :: 0 <= i < n ==> source[..n][i] == source[i];
    }
  }

  lemma {:induction false} AddTermsCoef(terms: Terms, source: Terms, f: byte, k: Id)
    requires Normal(terms) && Normal(source) && f != 0
    ensures Coef(AddTerms(terms, source, f), k) == Add(Coef(terms, k), Mul(Coef(source, k), f))
  {
    hide Add, Mul, AddTerm, Coef;
    MulUnits(f);
    AddUnits(Coef(terms, k));
    if source == [] {
      CoefAbsent(source, k);
    } else {
      var n := |source| - 1;
      var init := source[..n];
      AddTermsNormal(terms, init, f);
      AddTermsCoef(terms, init, f, k);
      AddTermCoef(AddTerms(terms, init, f), source[n].0, Mul(source[n].1, f), k);
      CoefInit(source, k);
    }
  }

  lemma CoefInit(source: Terms, k: Id)
    requires Normal(source) && source != []
    ensures var n := |source| - 1;
      if source[n].0 == k then Coef(source[..n], k) == 0 && Coef(source, k) == source[n].1
      else Coef(source[..n], k) == Coef(source, k)
  {
    hide Coef;
    var n := |source| - 1;
    var init := source[..n];
    if source[n].0 == k {
      CoefAt(source, n);
      assert forall i :: 0 <= i < n ==> init[i].0 < k;
      CoefAbsent(init, k);
    } else if k in Ids(source) {
      var i :| 0 <= i < |source| && source[i].0 == k;
      CoefAt(source, i);
      CoefAt(init, i);
      assert init[i] == source[i];
    } else {
      assert forall i :: 0 <= i < n ==> init[i].0 == source[i].0 && source[i].0 in Ids(source);
      CoefAbsent(init, k);
      CoefAbsent(source, k);
    }
  }

  lemma {:induction false} AddTermsDot(terms: Terms, source: Terms, f: byte, x: Assignment, j: nat)
    ensures Dot(AddTerms(terms, source, f), x, j) == Add(Dot(terms, x, j), Mul(Dot(source, x, j), f))
  {
    hide Add, Mul, Cell, AddTerm;
    MulUnits(f);
    AddUnits(Dot(terms, x, j));
    if source != [] {
      var n := |source| - 1;
      var init, last := source[..n], source[n];
      var v := Cell(x, last.0, j);
      AddTermsDot(terms, init, f, x, j);
      AddTermDot(AddTerms(terms, init, f), last.0, Mul(last.1, f), x, j);
      assert source == init + [last];
      DotConcat(init, [last], x, j);
      DotSingle(last.0, last.1, x, j);
      MulAddsLeft(Dot(init, x, j), Mul(last.1, v), f);
      MulAssociates(last.1, f, v); MulCommutes(f, v); MulAssociates(last.1, v, f);
      AddAssociates(Dot(terms, x, j), Mul(Dot(init, x, j), f), Mul(Mul(last.1, v), f));
    }
  }

  lemma AddedAt(data: Bytes, source: Bytes, f: byte, j: nat)
    ensures At(AddBytes(data, source, f), j) == Add(At(data, j), Mul(At(source, j), f))
  {
    MulUnits(f);
    AddUnits(0);
  }

  /** Adding a multiple of a satisfied equation changes neither truth nor falsity of the other. */
  lemma CombinedSat(target: Row, source: Row, f: byte, x: Assignment)
    requires Sat(source, x)
    ensures Sat(Combined(target, source, f), x) <==> Sat(target, x)
  {
    hide Add, Mul, Dot, At, AddTerms, AddBytes;
    forall j: nat
      ensures Dot(Combined(target, source, f).coefficients, x, j) == At(Combined(target, source, f).data, j)
         <==> Dot(target.coefficients, x, j) == At(target.data, j)
    {
      AddTermsDot(target.coefficients, source.coefficients, f, x, j);
      AddedAt(target.data, source.data, f, j);
      AddCancels(Dot(target.coefficients, x, j), Mul(At(source.data, j), f));
      AddCancels(At(target.data, j), Mul(At(source.data, j), f));
    }
  }
}
