/** Which lost symbols of a span its repairs bring back (src/fec.rs). */
module Losses {
  import opened Results
  import opened Galois
  import opened Rows
  import opened Determination
  import opened Repair
  import opened Substitution
  import opened Storage
  import opened Reduction
  import opened Harvest
  import opened Decoding
  import opened Decoder
  import opened DecoderRuns
  import opened Optimality
  import Pinned

  ghost predicate SourceOf(e: Event, id: Id) {
    e.SourceArrives? && e.id == id
  }

  ghost predicate RepairOf(e: Event, first: Id, span: nat, repairId: Id, seed: Id) {
    e.RepairArrives? && e.first == first && e.span == span && e.repairId == repairId && e.seed == seed
  }

  ghost predicate HasRepair(events: seq<Event>, first: Id, span: nat, repairId: Id, seed: Id) {
    exists i :: 0 <= i < |events| && RepairOf(events[i], first, span, repairId, seed)
  }

  /** Every symbol of the span but the lost ones arrived by itself. */
  ghost predicate RestArrived(events: seq<Event>, first: Id, span: nat, lost: set<nat>) {
    forall o: nat :: o < span && o !in lost ==> exists i :: 0 <= i < |events| && SourceOf(events[i], SymbolId(first, o))
  }

  /** Nothing arrived but symbols of the span that are not lost, and the repairs a and b of the span. */
  ghost predicate NothingElse(events: seq<Event>, first: Id, span: nat, seed: Id, a: Id, b: Id, lost: set<nat>) {
    forall i :: 0 <= i < |events| ==>
      || (exists o: nat :: o < span && o !in lost && SourceOf(events[i], SymbolId(first, o)))
      || RepairOf(events[i], first, span, a, seed)
      || RepairOf(events[i], first, span, b, seed)
  }

  /** The determinant of the coefficients that two repairs give two symbols. */
  function Minor(seed: Id, a: Id, b: Id, i: Id, k: Id): byte {
    Add(Mul(Coefficient(seed, a, i), Coefficient(seed, b, k)), Mul(Coefficient(seed, a, k), Coefficient(seed, b, i)))
  }

  // ----- sums in which few terms matter

  lemma DotOne(terms: Terms, e: Assignment, j: nat, i: nat)
    requires i < |terms|
    requires forall t :: 0 <= t < |terms| && t != i ==> Cell(e, terms[t].0, j) == 0
    ensures Dot(terms, e, j) == Mul(terms[i].1, Cell(e, terms[i].0, j))
  {
    hide Dot, Add, Mul, Cell;
    var head, tail := terms[..i], terms[i + 1..];
    assert terms == head + ([terms[i]] + tail);
    DotConcat(head, [terms[i]] + tail, e, j);
    DotConcat([terms[i]], tail, e, j);
    DotZero(head, e, j);
    DotZero(tail, e, j);
    DotSingle(terms[i].0, terms[i].1, e, j);
    AddUnits(Mul(terms[i].1, Cell(e, terms[i].0, j)));
  }

  lemma DotTwo(terms: Terms, e: Assignment, j: nat, i: nat, k: nat)
    requires i < k < |terms|
    requires forall t :: 0 <= t < |terms| && t != i && t != k ==> Cell(e, terms[t].0, j) == 0
    ensures Dot(terms, e, j) == Add(Mul(terms[i].1, Cell(e, terms[i].0, j)), Mul(terms[k].1, Cell(e, terms[k].0, j)))
  {
    hide Dot, Add, Mul, Cell;
    var head, tail := terms[..i + 1], terms[i + 1..];
    assert terms == head + tail;
    DotConcat(head, tail, e, j);
    DotOne(head, e, j, i);
    DotOne(tail, e, j, k - i - 1);
  }

  // ----- the difference of two solutions

  lemma PlusSat(row: Row, x: Assignment, y: Assignment, j: nat)
    requires Sat(row, x) && Sat(row, y)
    ensures Dot(row.coefficients, Determination.Plus(x, y), j) == 0
  {
    hide Dot, Add, Determination.Plus;
    PlusDot(row.coefficients, x, y, j);
    AddUnits(At(row.data, j));
  }

  lemma RestIsEqual(events: seq<Event>, first: Id, span: nat, lost: set<nat>, x: Assignment, y: Assignment, o: nat,
                    j: nat)
    requires RestArrived(events, first, span, lost) && o < span && o !in lost && AllSay(x, events) && AllSay(y, events)
    ensures Cell(Determination.Plus(x, y), SymbolId(first, o), j) == 0
  {
    hide Determination.Plus, Add, Cell;
    var i :| 0 <= i < |events| && SourceOf(events[i], SymbolId(first, o));
    assert Says(x, events[i]) && Says(y, events[i]);
    PlusCell(x, y, SymbolId(first, o), j);
    AddUnits(Cell(x, SymbolId(first, o), j));
  }

  lemma RepairIsBalanced(events: seq<Event>, first: Id, span: nat, repairId: Id, seed: Id, x: Assignment, y: Assignment,
                         j: nat)
    requires HasRepair(events, first, span, repairId, seed) && AllSay(x, events) && AllSay(y, events)
    ensures Dot(RepairTerms(first, span, repairId, seed), Determination.Plus(x, y), j) == 0
  {
    hide Determination.Plus, Add, Cell, Dot, Sat, RepairTerms;
    var i :| 0 <= i < |events| && RepairOf(events[i], first, span, repairId, seed);
    assert Says(x, events[i]) && Says(y, events[i]);
    PlusSat(Row(RepairTerms(first, span, repairId, seed), events[i].coded), x, y, j);
  }

  lemma SameCell(x: Assignment, y: Assignment, id: Id, j: nat)
    ensures Cell(Determination.Plus(x, y), id, j) == 0 <==> Cell(x, id, j) == Cell(y, id, j)
  {
    hide Determination.Plus, Add, Cell;
    PlusCell(x, y, id, j);
    AddCancels(Cell(x, id, j), Cell(y, id, j));
  }

  /**
   * One lost symbol: any repair over the span brings it back, whatever its id and seed, because no coefficient is zero.
   */
  lemma OneLoss(events: seq<Event>, first: Id, span: nat, seed: Id, repairId: Id, i: nat)
    requires i < span <= MAX_REPAIR_SPAN
    requires RestArrived(events, first, span, {i}) && HasRepair(events, first, span, repairId, seed)
    ensures Forced(events, SymbolId(first, i))
  {
    hide AllSay, RestArrived, HasRepair, Cell, Dot, Determination.Plus, Coefficient, Mul;
    var terms := RepairTerms(first, span, repairId, seed);
    forall x, y, j: nat | AllSay(x, events) && AllSay(y, events)
      ensures Cell(x, SymbolId(first, i), j) == Cell(y, SymbolId(first, i), j)
    {
      var e := Determination.Plus(x, y);
      forall t | 0 <= t < span && t != i ensures Cell(e, terms[t].0, j) == 0 {
        RestIsEqual(events, first, span, {i}, x, y, t, j);
      }
      DotOne(terms, e, j, i);
      RepairIsBalanced(events, first, span, repairId, seed, x, y, j);
      if Cell(e, terms[i].0, j) != 0 { MulNonzero(terms[i].1, Cell(e, terms[i].0, j)); }
      SameCell(x, y, terms[i].0, j);
    }
  }

  // ----- two lost symbols

  lemma Cramer(ai: byte, ak: byte, bi: byte, bk: byte, u: byte, v: byte)
    requires Add(Mul(ai, u), Mul(ak, v)) == 0 && Add(Mul(bi, u), Mul(bk, v)) == 0
    ensures var d := Add(Mul(ai, bk), Mul(ak, bi)); Mul(d, u) == 0 && Mul(d, v) == 0
  {
    hide Add, Mul;
    AddCancels(Mul(ai, u), Mul(ak, v));
    AddCancels(Mul(bi, u), Mul(bk, v));
    CramerFirst(ai, ak, bi, bk, u, v);
    CramerFirst(ak, ai, bk, bi, v, u);
    MulCommutes(ai, bk); MulCommutes(ak, bi);
    AddCommutes(Mul(ai, bk), Mul(ak, bi));
  }

  lemma CramerFirst(ai: byte, ak: byte, bi: byte, bk: byte, u: byte, v: byte)
    requires Mul(ai, u) == Mul(ak, v) && Mul(bi, u) == Mul(bk, v)
    ensures Mul(Add(Mul(ai, bk), Mul(ak, bi)), u) == 0
  {
    hide Add, Mul;
    MulAddsLeft(Mul(ai, bk), Mul(ak, bi), u);
    assert Mul(Mul(ai, bk), u) == Mul(bk, Mul(ak, v)) by {
      MulCommutes(ai, bk);
      MulAssociates(bk, ai, u);
    }
    assert Mul(Mul(ak, bi), u) == Mul(ak, Mul(bk, v)) by {
      MulAssociates(ak, bi, u);
    }
    assert Mul(bk, Mul(ak, v)) == Mul(ak, Mul(bk, v)) by {
      MulAssociates(bk, ak, v);
      MulCommutes(bk, ak);
      MulAssociates(ak, bk, v);
    }
    AddUnits(Mul(bk, Mul(ak, v)));
  }

  lemma TwoLossesForced(events: seq<Event>, first: Id, span: nat, seed: Id, a: Id, b: Id, i: nat, k: nat,
                        x: Assignment, y: Assignment, j: nat)
    requires i < k < span <= MAX_REPAIR_SPAN && RestArrived(events, first, span, {i, k})
    requires HasRepair(events, first, span, a, seed) && HasRepair(events, first, span, b, seed)
    requires Minor(seed, a, b, SymbolId(first, i), SymbolId(first, k)) != 0
    requires AllSay(x, events) && AllSay(y, events)
    ensures Cell(x, SymbolId(first, i), j) == Cell(y, SymbolId(first, i), j)
    ensures Cell(x, SymbolId(first, k), j) == Cell(y, SymbolId(first, k), j)
  {
    hide AllSay, RestArrived, HasRepair, Cell, Dot, Determination.Plus, Coefficient, Mul, Add;
    var p, q := RepairTerms(first, span, a, seed), RepairTerms(first, span, b, seed);
    var e, idI, idK := Determination.Plus(x, y), SymbolId(first, i), SymbolId(first, k);
    forall t | 0 <= t < span && t != i && t != k ensures Cell(e, SymbolId(first, t), j) == 0 {
      RestIsEqual(events, first, span, {i, k}, x, y, t, j);
    }
    DotTwo(p, e, j, i, k);
    DotTwo(q, e, j, i, k);
    RepairIsBalanced(events, first, span, a, seed, x, y, j);
    RepairIsBalanced(events, first, span, b, seed, x, y, j);
    Cramer(p[i].1, p[k].1, q[i].1, q[k].1, Cell(e, idI, j), Cell(e, idK, j));
    var d := Minor(seed, a, b, idI, idK);
    if Cell(e, idI, j) != 0 { MulNonzero(d, Cell(e, idI, j)); }
    if Cell(e, idK, j) != 0 { MulNonzero(d, Cell(e, idK, j)); }
    SameCell(x, y, idI, j);
    SameCell(x, y, idK, j);
  }

  /** What both repairs leave open when their determinant is zero. */
  function Slack(seed: Id, a: Id, i: Id, k: Id): Assignment {
    map[i := [Coefficient(seed, a, k)], k := [Coefficient(seed, a, i)]]
  }

  lemma SlackCells(seed: Id, a: Id, i: Id, k: Id, id: Id, j: nat)
    requires i != k
    ensures Cell(Slack(seed, a, i, k), id, j) ==
      if j != 0 then 0 else if id == i then Coefficient(seed, a, k) else if id == k then Coefficient(seed, a, i) else 0
  {
    hide Coefficient;
  }

  // Neither repair sees the slack.
  lemma SlackIsUnseen(first: Id, span: nat, seed: Id, a: Id, b: Id, i: nat, k: nat, j: nat)
    requires i < k < span <= MAX_REPAIR_SPAN
    requires Minor(seed, a, b, SymbolId(first, i), SymbolId(first, k)) == 0
    ensures var e := Slack(seed, a, SymbolId(first, i), SymbolId(first, k));
      && Dot(RepairTerms(first, span, a, seed), e, j) == 0
      && Dot(RepairTerms(first, span, b, seed), e, j) == 0
  {
    hide Cell, Dot, Slack, Coefficient, Mul, Add;
    var p, q := RepairTerms(first, span, a, seed), RepairTerms(first, span, b, seed);
    var idI, idK := SymbolId(first, i), SymbolId(first, k);
    var e := Slack(seed, a, idI, idK);
    SpanDistinct(first, i, k);
    forall t: nat | t < span ensures
      Cell(e, SymbolId(first, t), j) == if j != 0 then 0 else if t == i then p[k].1 else if t == k then p[i].1 else 0
    {
      SlackCells(seed, a, idI, idK, SymbolId(first, t), j);
      OrdinalIs(first, t, i);
      OrdinalIs(first, t, k);
    }
    DotTwo(p, e, j, i, k);
    DotTwo(q, e, j, i, k);
    if j == 0 {
      MulCommutes(p[i].1, p[k].1);
      AddUnits(Mul(p[i].1, p[k].1));
      MulCommutes(q[i].1, p[k].1);
      MulCommutes(q[k].1, p[i].1);
      AddCommutes(Mul(p[i].1, q[k].1), Mul(p[k].1, q[i].1));
    } else {
      MulUnits(p[i].1); MulUnits(p[k].1); MulUnits(q[i].1); MulUnits(q[k].1);
      AddUnits(0);
    }
  }

  lemma OrdinalIs(first: Id, t: nat, i: nat)
    requires t < MAX_REPAIR_SPAN && i < MAX_REPAIR_SPAN
    ensures SymbolId(first, t) == SymbolId(first, i) <==> t == i
  {
    if t < i { SpanDistinct(first, t, i); }
    if i < t { SpanDistinct(first, i, t); }
  }

  lemma SlackSays(events: seq<Event>, first: Id, span: nat, seed: Id, a: Id, b: Id, i: nat, k: nat, x: Assignment,
                  e: Event)
    requires i < k < span <= MAX_REPAIR_SPAN
    requires Minor(seed, a, b, SymbolId(first, i), SymbolId(first, k)) == 0
    requires NothingElse(events, first, span, seed, a, b, {i, k}) && e in events && Says(x, e)
    ensures Says(Determination.Plus(x, Slack(seed, a, SymbolId(first, i), SymbolId(first, k))), e)
  {
    hide Cell, Dot, Slack, Coefficient, Mul, Add, Minor, Determination.Plus, RepairTerms;
    var idI, idK := SymbolId(first, i), SymbolId(first, k);
    var s := Slack(seed, a, idI, idK);
    match e
    case SourceArrives(id, source, _, _) =>
      var o: nat :| o < span && o !in {i, k} && SourceOf(e, SymbolId(first, o));
      OrdinalIs(first, o, i);
      OrdinalIs(first, o, k);
      SpanDistinct(first, i, k);
      forall j: nat ensures Cell(Determination.Plus(x, s), id, j) == At(source.bytes, j) {
        SlackCells(seed, a, idI, idK, id, j);
        PlusCell(x, s, id, j);
        AddUnits(Cell(x, id, j));
      }
    case RepairArrives(_, _, repairId, _, coded, _) =>
      var terms := RepairTerms(first, span, repairId, seed);
      assert RepairOf(e, first, span, repairId, seed) && (repairId == a || repairId == b);
      forall j: nat ensures Dot(terms, Determination.Plus(x, s), j) == At(coded, j) {
        SlackIsUnseen(first, span, seed, a, b, i, k, j);
        PlusDot(terms, x, s, j);
        AddUnits(Dot(terms, x, j));
      }
  }

  lemma TwoLossesFree(events: seq<Event>, first: Id, span: nat, seed: Id, a: Id, b: Id, i: nat, k: nat, x: Assignment)
    requires i < k < span <= MAX_REPAIR_SPAN
    requires Minor(seed, a, b, SymbolId(first, i), SymbolId(first, k)) == 0
    requires NothingElse(events, first, span, seed, a, b, {i, k}) && AllSay(x, events)
    ensures !Forced(events, SymbolId(first, i)) && !Forced(events, SymbolId(first, k))
  {
    hide Cell, Slack, Mul, Add, Minor, Determination.Plus, RepairTerms, NothingElse, Says, Coefficient;
    var idI, idK := SymbolId(first, i), SymbolId(first, k);
    var s := Slack(seed, a, idI, idK);
    var y := Determination.Plus(x, s);
    forall n | 0 <= n < |events| ensures Says(y, events[n]) {
      SlackSays(events, first, span, seed, a, b, i, k, x, events[n]);
    }
    SpanDistinct(first, i, k);
    SlackCells(seed, a, idI, idK, idI, 0);
    SlackCells(seed, a, idI, idK, idK, 0);
    assert Cell(y, idI, 0) != Cell(x, idI, 0) by { Moved(x, s, idI); }
    assert Cell(y, idK, 0) != Cell(x, idK, 0) by { Moved(x, s, idK); }
  }

  lemma Moved(x: Assignment, s: Assignment, id: Id)
    requires Cell(s, id, 0) != 0
    ensures Cell(Determination.Plus(x, s), id, 0) != Cell(x, id, 0)
  {
    hide Cell, Add, Determination.Plus;
    PlusCell(x, s, id, 0);
    AddCommutes(Cell(x, id, 0), Cell(s, id, 0));
    AddCancels(Cell(s, id, 0), Cell(x, id, 0));
    AddUnits(Cell(x, id, 0));
  }

  /**
   * Two lost symbols and two repairs over the span: both symbols are determined if the determinant of their
   * coefficients is not zero, and neither is if it is zero.
   */
  lemma TwoLosses(events: seq<Event>, first: Id, span: nat, seed: Id, a: Id, b: Id, i: nat, k: nat, x: Assignment)
    requires i < k < span <= MAX_REPAIR_SPAN && RestArrived(events, first, span, {i, k})
    requires HasRepair(events, first, span, a, seed) && HasRepair(events, first, span, b, seed)
    requires NothingElse(events, first, span, seed, a, b, {i, k}) && AllSay(x, events)
    ensures Forced(events, SymbolId(first, i)) <==> Minor(seed, a, b, SymbolId(first, i), SymbolId(first, k)) != 0
    ensures Forced(events, SymbolId(first, k)) <==> Minor(seed, a, b, SymbolId(first, i), SymbolId(first, k)) != 0
  {
    hide AllSay, RestArrived, HasRepair, NothingElse, Minor, Cell;
    if Minor(seed, a, b, SymbolId(first, i), SymbolId(first, k)) == 0 {
      TwoLossesFree(events, first, span, seed, a, b, i, k, x);
    } else {
      forall y, z, j: nat | AllSay(y, events) && AllSay(z, events)
        ensures Cell(y, SymbolId(first, i), j) == Cell(z, SymbolId(first, i), j)
        ensures Cell(y, SymbolId(first, k), j) == Cell(z, SymbolId(first, k), j)
      {
        TwoLossesForced(events, first, span, seed, a, b, i, k, y, z, j);
      }
    }
  }

  /** A repair that arrives twice is no help: with a == b the determinant is zero. */
  lemma SameRepairTwice(seed: Id, a: Id, i: Id, k: Id)
    ensures Minor(seed, a, a, i, k) == 0
  {
    hide Add, Mul, Coefficient;
    MulCommutes(Coefficient(seed, a, i), Coefficient(seed, a, k));
    AddUnits(Mul(Coefficient(seed, a, i), Coefficient(seed, a, k)));
  }

  lemma Minors()
    ensures Minor(0, 0, 1, 0, 1) != 0 && Minor(7, 100, 101, 10, 11) != 0
  {
    hide Add, Mul, Coefficient;
    Pinned.CoefficientVectors();
    Pinned.At0x0x1();
    Pinned.At0x1x0();
    Pinned.At0x1x1();
    Pinned.Products();
    AddCancels(0x42, 0x46);
    AddCancels(0xd5, 0x55);
  }

  /** Two repairs with a nonzero determinant bring back both sources of a span of two, whatever else arrived. */
  lemma TwoRepairs(events: seq<Event>, moments: seq<Moment>, results: seq<Result<seq<Recovered>, FecError>>, l: Limits,
                   first: Id, seed: Id, a: Id, b: Id)
    requires Lossless(events, moments, results, l) && moments[0].rows == [] && moments[0].known == []
    requires HasRepair(events, first, 2, a, seed) && HasRepair(events, first, 2, b, seed)
    requires Minor(seed, a, b, SymbolId(first, 0), SymbolId(first, 1)) != 0
    ensures Obtained(events, results, SymbolId(first, 0)) && Obtained(events, results, SymbolId(first, 1))
  {
    hide Lossless, Obtained, HasRepair, AllSay, Minor, Cell, SymbolId;
    assert RestArrived(events, first, 2, {0, 1});
    forall y, z, j: nat | AllSay(y, events) && AllSay(z, events)
      ensures Cell(y, SymbolId(first, 0), j) == Cell(z, SymbolId(first, 0), j)
      ensures Cell(y, SymbolId(first, 1), j) == Cell(z, SymbolId(first, 1), j)
    {
      TwoLossesForced(events, first, 2, seed, a, b, 0, 1, y, z, j);
    }
    Optimal(events, moments, results, l, SymbolId(first, 0));
    Optimal(events, moments, results, l, SymbolId(first, 1));
  }

  /** The first two repairs of a window bring back its first two sources when both were lost. */
  lemma FirstTwoRepairs(events: seq<Event>, moments: seq<Moment>, results: seq<Result<seq<Recovered>, FecError>>,
                        l: Limits)
    requires Lossless(events, moments, results, l) && moments[0].rows == [] && moments[0].known == []
    ensures HasRepair(events, 0, 2, 0, 0) && HasRepair(events, 0, 2, 1, 0) ==>
      Obtained(events, results, 0) && Obtained(events, results, 1)
    ensures HasRepair(events, 10, 2, 100, 7) && HasRepair(events, 10, 2, 101, 7) ==>
      Obtained(events, results, 10) && Obtained(events, results, 11)
  {
    hide Lossless, Obtained, HasRepair, Minor;
    Minors();
    if HasRepair(events, 0, 2, 0, 0) && HasRepair(events, 0, 2, 1, 0) {
      TwoRepairs(events, moments, results, l, 0, 0, 0, 1);
    }
    if HasRepair(events, 10, 2, 100, 7) && HasRepair(events, 10, 2, 101, 7) {
      TwoRepairs(events, moments, results, l, 10, 7, 100, 101);
    }
  }
}
