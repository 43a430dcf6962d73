/** Repair symbols: hashed coefficients and the coded sum of a span of sources (src/fec.rs). */
module Repair {
  import opened Results
  import opened Galois
  import opened Rows
  import opened Reduction
  import Mixing

  const MAX_REPAIR_SPAN: nat := 256
  const U32: nat := 0x1_0000_0000
  const U16_MAX: nat := 0xffff

  /** src/fec.rs, `coefficient`: a nonzero byte hashed from the repair and symbol ids. */
  function Coefficient(seed: Id, repairId: Id, symbolId: Id): (c: byte)
    ensures c != 0
  {
    var mixed := Mixing.Mix(seed, repairId, symbolId) % 256;
    if mixed == 0 then 1 else mixed
  }

  function SymbolId(first: Id, ordinal: nat): Id {
    (first + ordinal) % U32
  }

  /** The coefficients a repair header stands for, in span order. */
  function RepairTerms(first: Id, span: nat, repairId: Id, seed: Id): (t: Terms)
    ensures |t| == span
  {
    seq(span, i requires 0 <= i < span => (SymbolId(first, i), Coefficient(seed, repairId, SymbolId(first, i))))
  }

  lemma SpanDistinct(first: Id, i: nat, k: nat)
    requires i < k <= MAX_REPAIR_SPAN
    ensures SymbolId(first, i) != SymbolId(first, k)
  {
  }

  /** `sources` are the symbols from `first` on, as assigned by x. */
  ghost predicate Labels(x: Assignment, first: Id, sources: seq<Bytes>) {
    forall i :: 0 <= i < |sources| ==> SymbolId(first, i) in x && x[SymbolId(first, i)] == sources[i]
  }

  /** A repair that a sender holding the symbols x would emit. */
  ghost predicate GenuineRepair(x: Assignment, first: Id, span: nat, repairId: Id, seed: Id, coded: Bytes) {
    && 1 <= span <= MAX_REPAIR_SPAN
    && (forall i :: 0 <= i < span ==> SymbolId(first, i) in x && |x[SymbolId(first, i)]| <= |coded|)
    && (exists i :: 0 <= i < span && |x[SymbolId(first, i)]| == |coded|)
    && forall j: nat :: At(coded, j) == Dot(RepairTerms(first, span, repairId, seed), x, j)
  }

  function MaxLength(sources: seq<Bytes>): (n: nat)
    ensures forall i :: 0 <= i < |sources| ==> |sources[i]| <= n
    ensures n == 0 || exists i :: 0 <= i < |sources| && |sources[i]| == n
  {
    if sources == [] then 0
    else
      var k := |sources| - 1;
      var m := MaxLength(sources[..k]);
      assert forall i :: 0 <= i < k ==> sources[..k][i] == sources[i];
      assert |sources[k]| == |sources[k]|;
      if m < |sources[k]| then |sources[k]| else m
  }

  // Dot product of the first i terms of a repair, column j.
  function Partial(sources: seq<Bytes>, terms: Terms, i: nat, j: nat): byte
    requires i <= |sources| == |terms|
  {
    if i == 0 then 0 else Add(Partial(sources, terms, i - 1, j), Mul(At(sources[i - 1], j), terms[i - 1].1))
  }

  lemma {:induction false} PartialIsDot(sources: seq<Bytes>, terms: Terms, x: Assignment, i: nat, j: nat)
    requires i <= |sources| == |terms|
    requires forall k :: 0 <= k < |sources| ==> terms[k].0 in x && x[terms[k].0] == sources[k]
    ensures Partial(sources, terms, i, j) == Dot(terms[..i], x, j)
  {
    if i != 0 {
      hide Add, Mul;
      PartialIsDot(sources, terms, x, i - 1, j);
      var (id, c) := terms[i - 1];
      assert terms[..i] == terms[..i - 1] + [(id, c)];
      DotConcat(terms[..i - 1], [(id, c)], x, j);
      DotSingle(id, c, x, j);
      MulCommutes(c, At(sources[i - 1], j));
    }
  }

  /** The inner loop of `repair_symbol`: adds a multiple of one source. */
  method AddScaled(target: Bytes, source: Bytes, c: byte) returns (output: Bytes)
    requires |source| <= |target|
    ensures output == AddBytes(target, source, c)
  {
    hide Add, Mul;
    output := target;
    var j := 0;
    while j < |source|
      invariant 0 <= j <= |source| <= |output| == |target|
      invariant forall k :: 0 <= k < j ==> output[k] == Add(target[k], Mul(source[k], c))
      invariant forall k :: j <= k < |output| ==> output[k] == target[k]
    {
      var product := Multiply(source[j], c);
      output := output[j := Add(output[j], product)];
      j := j + 1;
    }
    forall k | 0 <= k < |output| ensures output[k] == AddBytes(target, source, c)[k] {
      MulUnits(c);
      AddUnits(target[k]);
    }
  }

  /** src/fec.rs, `repair_symbol`: the output is the coded sum of exactly the labelled sources. */
  method RepairSymbol(first: Id, repairId: Id, seed: Id, sources: seq<Bytes>) returns (res: Result<Bytes, FecError>)
    ensures res == Err(InvalidSpan) <==> |sources| == 0 || |sources| > MAX_REPAIR_SPAN
    ensures res == Err(InvalidSymbolSize) <==>
      1 <= |sources| <= MAX_REPAIR_SPAN && (MaxLength(sources) == 0 || MaxLength(sources) > U16_MAX)
    ensures res.Err? ==> res.error == InvalidSpan || res.error == InvalidSymbolSize
    ensures res.Ok? ==> |res.value| == MaxLength(sources)
    ensures res.Ok? ==> forall x :: Labels(x, first, sources) ==>
      GenuineRepair(x, first, |sources|, repairId, seed, res.value)
  {
    if |sources| == 0 || |sources| > MAX_REPAIR_SPAN {
      return Err(InvalidSpan);
    }
    var size := MaxLength(sources);
    if size == 0 || size > U16_MAX {
      return Err(InvalidSymbolSize);
    }
    ghost var terms := RepairTerms(first, |sources|, repairId, seed);
    var output: Bytes := seq(size, _ => 0);
    var ordinal := 0;
    while ordinal < |sources|
      invariant 0 <= ordinal <= |sources|
      invariant |output| == size
      invariant forall j: nat :: At(output, j) == Partial(sources, terms, ordinal, j)
    {
      hide Add, Mul, Coefficient;
      var c := Coefficient(seed, repairId, SymbolId(first, ordinal));
      forall j: nat ensures At(AddBytes(output, sources[ordinal], c), j) == Partial(sources, terms, ordinal + 1, j) {
        AddedAt(output, sources[ordinal], c, j);
      }
      output := AddScaled(output, sources[ordinal], c);
      ordinal := ordinal + 1;
    }
    forall x | Labels(x, first, sources) ensures GenuineRepair(x, first, |sources|, repairId, seed, output) {
      CodedIsGenuine(x, first, repairId, seed, sources, output);
    }
    return Ok(output);
  }

  lemma CodedIsGenuine(x: Assignment, first: Id, repairId: Id, seed: Id, sources: seq<Bytes>, output: Bytes)
    requires Labels(x, first, sources) && 1 <= |sources| <= MAX_REPAIR_SPAN
    requires |output| == MaxLength(sources) > 0
    requires forall j: nat ::
      At(output, j) == Partial(sources, RepairTerms(first, |sources|, repairId, seed), |sources|, j)
    ensures GenuineRepair(x, first, |sources|, repairId, seed, output)
  {
    hide Add, Mul, Coefficient;
    var terms := RepairTerms(first, |sources|, repairId, seed);
    assert terms[..|sources|] == terms;
    forall j: nat ensures At(output, j) == Dot(terms, x, j) {
      PartialIsDot(sources, terms, x, |sources|, j);
    }
    var i :| 0 <= i < |sources| && |sources[i]| == |output|;
    assert |x[SymbolId(first, i)]| == |output|;
  }
}
