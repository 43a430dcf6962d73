/** Splitting a finished elimination into recovered sources and rows to keep (src/fec.rs). */
module Harvest {
  import opened Results
  import opened Galois
  import opened Rows
  import opened Elimination
  import opened Storage
  import opened Vectors
  import opened Reduction
  import opened Determination
  import opened Substitution
  import opened SourceCodec

  /** Rows that still mention at least two unknown symbols. */
  function Kept(rows: seq<Row>): (r: seq<Row>)
    ensures |r| <= |rows|
  {
    if rows == [] then []
    else
      var last := rows[|rows| - 1];
      Kept(rows[..|rows| - 1]) + (if |last.coefficients| > 1 then [last] else [])
  }

  lemma {:induction false} KeptFrom(rows: seq<Row>, k: nat) returns (i: nat)
    requires k < |Kept(rows)|
    ensures i < |rows| && Kept(rows)[k] == rows[i] && |rows[i].coefficients| > 1
  {
    i := |rows| - 1;
    if k < |Kept(rows[..i])| {
      i := KeptFrom(rows[..i], k);
    }
  }

  lemma {:induction false} KeptPair(rows: seq<Row>, a: nat, b: nat) returns (i: nat, k: nat)
    requires a < b < |Kept(rows)|
    ensures i < k < |rows| && Kept(rows)[a] == rows[i] && Kept(rows)[b] == rows[k]
  {
    var n := |rows| - 1;
    if b < |Kept(rows[..n])| {
      i, k := KeptPair(rows[..n], a, b);
    } else {
      k := n;
      i := KeptFrom(rows[..n], a);
    }
  }

  lemma {:induction false} KeptHas(rows: seq<Row>, i: nat) returns (k: nat)
    requires i < |rows| && |rows[i].coefficients| > 1
    ensures k < |Kept(rows)| && Kept(rows)[k] == rows[i]
  {
    if i < |rows| - 1 {
      k := KeptHas(rows[..|rows| - 1], i);
    } else {
      k := |Kept(rows)| - 1;
    }
  }

  /** Every kept row has two or more unknowns, and together they are in reduced echelon form. */
  ghost predicate Pending(rows: seq<Row>) {
    Echelon(rows, |rows|) && forall i :: 0 <= i < |rows| ==> |rows[i].coefficients| > 1
  }

  lemma KeptPending(rows: seq<Row>, p: nat)
    requires Solved(rows, p)
    ensures Pending(Kept(rows))
  {
    hide Coef, Normal, Kept;
    var r := Kept(rows);
    forall k | 0 <= k < |r|
      ensures |r[k].coefficients| > 1 && Normal(r[k].coefficients) && r[k].coefficients[0].1 == 1
    {
      var i := KeptFrom(rows, k);
    }
    forall a, b | 0 <= a < b < |r|
      ensures Above(r[a].coefficients[0].0, r[b].coefficients)
      ensures Coef(r[b].coefficients, r[a].coefficients[0].0) == 0
      ensures Coef(r[a].coefficients, r[b].coefficients[0].0) == 0
    {
      var i, k := KeptPair(rows, a, b);
    }
  }

  lemma KeptBounds(rows: seq<Row>, ids: set<Id>, max: nat)
    requires Within(rows, ids, max)
    ensures Within(Kept(rows), ids, max) && AllIds(Kept(rows)) <= ids
    ensures forall x :: Covers(rows, x) ==> Covers(Kept(rows), x)
  {
    hide Kept;
    var r := Kept(rows);
    forall k | 0 <= k < |r| ensures Ids(r[k].coefficients) <= ids && |r[k].data| <= max {
      var i := KeptFrom(rows, k);
    }
    IdsOfAll(r);
    forall x | Covers(rows, x) ensures Covers(r, x) {
      forall k, id | 0 <= k < |r| && id in Ids(r[k].coefficients) && id in x ensures |x[id]| <= |r[k].data| {
        var i := KeptFrom(rows, k);
        assert id in Ids(rows[i].coefficients);
      }
    }
  }

  ghost predicate AgreesAll(x: Assignment, values: seq<(Id, Bytes)>) {
    forall k :: 0 <= k < |values| ==> Agrees(x, values[k].0, values[k].1)
  }

  lemma SingleSat(row: Row, x: Assignment)
    requires |row.coefficients| == 1 && row.coefficients[0].1 == 1
    ensures Sat(row, x) <==> Agrees(x, row.coefficients[0].0, row.data)
  {
    hide Add, Mul, Cell, At;
    var id := row.coefficients[0].0;
    assert row.coefficients == [(id, 1)];
    forall j: nat ensures Dot(row.coefficients, x, j) == Cell(x, id, j) {
      DotSingle(id, 1, x, j);
      MulUnits(Cell(x, id, j));
    }
  }

  /** Nothing is lost: the kept rows and the reported values say exactly what the whole matrix said. */
  lemma KeptAndReported(rows: seq<Row>, p: nat, x: Assignment)
    requires Solved(rows, p)
    ensures SatAll(rows, x) <==> SatAll(Kept(rows), x) && AgreesAll(x, Reported(rows))
  {
    hide Kept, Reported, Agrees, Sat, Coef, Normal, Above;
    if SatAll(rows, x) {
      forall k | 0 <= k < |Kept(rows)| ensures Sat(Kept(rows)[k], x) {
        var i := KeptFrom(rows, k);
      }
      forall k | 0 <= k < |Reported(rows)| ensures Agrees(x, Reported(rows)[k].0, Reported(rows)[k].1) {
        var i := ReportedFrom(rows, k);
        SingleSat(rows[i], x);
      }
    }
    if SatAll(Kept(rows), x) && AgreesAll(x, Reported(rows)) {
      forall i | 0 <= i < |rows| ensures Sat(rows[i], x) {
        if |rows[i].coefficients| > 1 {
          var k := KeptHas(rows, i);
        } else if |rows[i].coefficients| == 1 {
          var k := ReportedHas(rows, i);
          SingleSat(rows[i], x);
        } else {
          EmptySat(rows[i], x);
        }
      }
    }
  }

  lemma EmptySat(row: Row, x: Assignment)
    requires row.coefficients == [] && AllZero(row.data)
    ensures Sat(row, x)
  {
  }

  // ----- recovered sources

  datatype Recovered = Recovered(symbolId: Id, bytes: Bytes, retained: nat)

  /** The recovered bytes are the padded value of a source with the right symbol id, without the padding. */
  ghost predicate Strips(value: (Id, Bytes), max: nat, r: Recovered) {
    var res := DecodeSourcePadded(value.1, MAX_SOURCE_RECORDS, max);
    res.Ok? && res.value.0.symbolId == value.0
    && r == Recovered(value.0, value.1[..res.value.1], res.value.1)
  }

  ghost predicate Undecodable(value: (Id, Bytes), max: nat) {
    var res := DecodeSourcePadded(value.1, MAX_SOURCE_RECORDS, max);
    res.Err? || res.value.0.symbolId != value.0
  }

  /** The value is no source of its symbol, or differs from a source already known. */
  ghost predicate Rejected(value: (Id, Bytes), known: seq<KnownSource>, max: nat) {
    || Undecodable(value, max)
    || exists r :: Strips(value, max, r) && Lookup(known, value.0).Some? && Lookup(known, value.0).value != r.bytes
  }

  /** src/fec.rs, `canonical_recovered` and `validate_recovered`. */
  method Canonical(values: seq<(Id, Bytes)>, known: seq<KnownSource>, max: nat)
    returns (res: Result<seq<Recovered>, FecError>)
    ensures res.Err? ==> res.error == ContradictoryRepair
    ensures res.Err? ==> exists k :: 0 <= k < |values| && Rejected(values[k], known, max)
    ensures res.Ok? ==> |res.value| == |values|
    ensures res.Ok? ==> forall k :: 0 <= k < |values| ==> Strips(values[k], max, res.value[k])
  {
    hide DecodeSourcePadded;
    var canonical: seq<Recovered> := [];
    var k := 0;
    while k < |values|
      invariant 0 <= k <= |values| && |canonical| == k
      invariant forall i :: 0 <= i < k ==> Strips(values[i], max, canonical[i])
    {
      var decoded := DecodeSourcePadded(values[k].1, MAX_SOURCE_RECORDS, max);
      if decoded.Err? || decoded.value.0.symbolId != values[k].0 {
        return Err(ContradictoryRepair);
      }
      var consumed := decoded.value.1;
      var storage := Copy(values[k].1[..consumed], consumed);
      canonical := Push(canonical, Recovered(values[k].0, storage, consumed), |values|);
      k := k + 1;
    }
    k := 0;
    while k < |canonical|
      invariant 0 <= k <= |canonical|
    {
      var existing := Lookup(known, canonical[k].symbolId);
      if existing.Some? && existing.value != canonical[k].bytes {
        assert Strips(values[k], max, canonical[k]);
        return Err(ContradictoryRepair);
      }
      k := k + 1;
    }
    return Ok(canonical);
  }

  /** x assigns to each of its symbols the encoding of a source with that symbol's id. */
  ghost predicate Genuine(x: Assignment, max: nat) {
    forall id :: id in x ==> GenuineSource(id, x[id], max)
  }

  ghost predicate GenuineSource(id: Id, bytes: Bytes, max: nat) {
    && |bytes| <= max
    && exists s: Source :: ValidSource(s) && |s.records| <= MAX_SOURCE_RECORDS && s.symbolId == id
                        && bytes == EncodeSource(s)
  }

  // A forced value that is long enough strips to the genuine source, byte for byte.
  lemma StripsToTruth(x: Assignment, max: nat, value: (Id, Bytes))
    requires Genuine(x, max) && value.0 in x && Agrees(x, value.0, value.1)
    requires |x[value.0]| <= |value.1| <= max
    ensures !Undecodable(value, max)
    ensures forall r :: Strips(value, max, r) ==> r.bytes == x[value.0] && r.symbolId == value.0
  {
    var (id, data) := value;
    var bytes := x[id];
    var s: Source :| ValidSource(s) && |s.records| <= MAX_SOURCE_RECORDS && s.symbolId == id &&
        bytes == EncodeSource(s);
    hide EncodeSource, DecodeSourcePadded, ValidSource;
    forall j | 0 <= j < |data| ensures data[j] == At(bytes, j) {
      assert Cell(x, id, j) == At(data, j);
    }
    assert data[..|bytes|] == bytes;
    PaddedRoundTrip(s, data, MAX_SOURCE_RECORDS, max);
  }

  // Stripping zero padding does not change what a value says.
  lemma StripsAgree(value: (Id, Bytes), max: nat, r: Recovered, x: Assignment)
    requires Strips(value, max, r)
    ensures Agrees(x, value.0, value.1) <==> Agrees(x, r.symbolId, r.bytes)
  {
    var res := DecodeSourcePadded(value.1, MAX_SOURCE_RECORDS, max);
    var n := res.value.1;
    var rest := value.1[n..];
    assert Zeros(rest) by { PaddedRest(value.1, max); }
    hide DecodeSourcePadded, Cell;
    forall j: nat ensures At(value.1, j) == At(r.bytes, j) {
      if n <= j < |value.1| {
        assert value.1[j] == rest[j - n];
      }
    }
  }

  lemma PaddedRest(data: Bytes, max: nat)
    requires DecodeSourcePadded(data, MAX_SOURCE_RECORDS, max).Ok?
    ensures Zeros(data[DecodeSourcePadded(data, MAX_SOURCE_RECORDS, max).value.1..])
  {
    var (s, rest) := ParseSource(data, MAX_SOURCE_RECORDS, max).value;
    SourceCanonical(data, MAX_SOURCE_RECORDS, max);
    hide EncodeSource, ParseSource;
    assert data[|data| - |rest|..] == rest;
  }

  // ----- the storage of what was recovered

  function RecoveredBytes(items: seq<Recovered>): nat {
    if items == [] then 0 else RecoveredBytes(items[..|items| - 1]) + items[|items| - 1].retained
  }

  lemma {:induction false} RecoveredFits(items: seq<Recovered>, max: nat)
    requires forall k :: 0 <= k < |items| ==> items[k].retained <= max
    ensures RecoveredBytes(items) <= |items| * max
  {
    if items != [] {
      var n := |items| - 1;
      RecoveredFits(items[..n], max);
      assert |items| * max == n * max + max;
    }
  }

  /** While n rows are harvested: a vector with room for a value per row, the values, and what they are stripped to. */
  function HarvestBytes(n: nat, items: seq<Recovered>, max: nat): nat {
    n * SIZE_VALUE + |items| * (max + SIZE_RECOVERED) + RecoveredBytes(items)
  }

  // ----- one decoding step, before it is committed

  datatype Outcome = Outcome(recovered: seq<Recovered>, rows: seq<Row>)

  ghost predicate KnownIn(known: seq<KnownSource>, x: Assignment) {
    forall i :: 0 <= i < |known| ==> known[i].symbolId in x && x[known[i].symbolId] == known[i].bytes
  }

  /** The symbols x explain the equations: genuine sources that satisfy every row and fit its data. */
  ghost predicate Explain(x: Assignment, rows: seq<Row>, known: seq<KnownSource>, max: nat) {
    Genuine(x, max) && KnownIn(known, x) && SatAll(rows, x) && Covers(rows, x) && AllIds(rows) <= x.Keys
  }

  ghost predicate IsRecovered(recovered: seq<Recovered>, id: Id) {
    exists k :: 0 <= k < |recovered| && recovered[k].symbolId == id
  }

  ghost predicate RecoveredAgree(x: Assignment, recovered: seq<Recovered>) {
    forall k :: 0 <= k < |recovered| ==> Agrees(x, recovered[k].symbolId, recovered[k].bytes)
  }

  ghost predicate RecoveredTrue(x: Assignment, recovered: seq<Recovered>) {
    forall k :: 0 <= k < |recovered| ==> recovered[k].symbolId in x && recovered[k].bytes == x[recovered[k].symbolId]
  }

  /** What a step that starts from the equations `rows` may produce. */
  ghost predicate Harvested(rows: seq<Row>, known: seq<KnownSource>, max: nat, out: Outcome) {
    && Pending(out.rows) && |out.rows| <= |rows| && Within(out.rows, AllIds(rows), max)
    && (forall k :: 0 <= k < |out.recovered| ==>
          && out.recovered[k].symbolId in AllIds(rows) && out.recovered[k].symbolId !in AllIds(out.rows)
          && 0 < |out.recovered[k].bytes| == out.recovered[k].retained <= max)
    && (forall a, b :: 0 <= a < b < |out.recovered| ==> out.recovered[a].symbolId < out.recovered[b].symbolId)
    && (forall id :: IsRecovered(out.recovered, id) <==> Determined(rows, id))
    && (forall x :: SatAll(rows, x) <==> SatAll(out.rows, x) && RecoveredAgree(x, out.recovered))
    && (forall x :: Explain(x, rows, known, max) ==>
          Explain(x, out.rows, known, max) && RecoveredTrue(x, out.recovered))
  }
}
