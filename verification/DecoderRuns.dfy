/** Whole runs of the decoder: arbitrary losses, reorderings, duplicates and evictions. */
module DecoderRuns {
  import opened Results
  import opened Galois
  import opened Rows
  import opened Elimination
  import opened Storage
  import opened Reduction
  import opened Repair
  import opened Substitution
  import opened Harvest
  import opened Decoding
  import opened Budget
  import opened Decoder

  /** One arriving symbol. `dropped` are the recovered symbols that dispatch gives up before committing. */
  datatype Event =
    | SourceArrives(id: Id, source: Buffer, oldestUnique: bool, dropped: set<Id>)
    | RepairArrives(first: Id, span: nat, repairId: Id, seed: Id, coded: Bytes, dropped: set<Id>)
  {
    ghost predicate Valid() {
      SourceArrives? ==> source.Valid()
    }
  }

  /** The event is one that a sender holding the symbols x produces. */
  ghost predicate GenuineEvent(x: Assignment, e: Event) {
    match e
    case SourceArrives(id, source, _, _) => id in x && x[id] == source.bytes
    case RepairArrives(first, span, repairId, seed, coded, _) => GenuineRepair(x, first, span, repairId, seed, coded)
  }

  ghost predicate AllGenuine(x: Assignment, events: seq<Event>) {
    forall i :: 0 <= i < |events| ==> GenuineEvent(x, events[i])
  }

  lemma AllGenuineLast(x: Assignment, events: seq<Event>, i: nat)
    requires i < |events| && AllGenuine(x, events[..i + 1])
    ensures AllGenuine(x, events[..i]) && GenuineEvent(x, events[i])
  {
    hide GenuineEvent;
    assert events[..i + 1][i] == events[i];
    forall k | 0 <= k < i ensures GenuineEvent(x, events[..i][k]) {
      assert events[..i + 1][k] == events[..i][k];
    }
  }

  lemma {:induction false} RecoveredBytesLast(items: seq<Recovered>, i: nat)
    requires i < |items|
    ensures RecoveredBytes(items[..i + 1]) == RecoveredBytes(items[..i]) + items[i].retained
  {
    assert items[..i + 1][..i] == items[..i];
  }

  /** The decoder and its budget between two arrivals. */
  datatype Moment = Moment(rows: seq<Row>, known: seq<KnownSource>, used: nat)

  datatype Limits = Limits(symbols: nat, rows: nat, bytes: nat, memory: nat, work: nat)

  ghost function Now(d: Decoder): Moment
    reads d, d.budget
  {
    Moment(d.rows, d.known, d.budget.used)
  }

  ghost function LimitsOf(d: Decoder, work: nat): Limits {
    Limits(d.maxSymbols, d.maxRows, d.maxBytes, d.budget.limit, work)
  }

  /** Between arrivals the equations are reduced, mention no known symbol, and no symbol is known twice. */
  ghost predicate Steady(m: Moment) {
    Pending(m.rows) && AllIds(m.rows) !! KnownIds(m.known) && UniqueIds(m.known)
  }

  /** The known sources after the recovered ones that dispatch kept were committed, newest first. */
  function Committed(known: seq<KnownSource>, items: seq<Recovered>, dropped: set<Id>, max: nat): seq<KnownSource>
    decreases |items|
  {
    if items == [] then known
    else
      var n := |items| - 1;
      Committed(CommittedOne(known, items[n], dropped, max), items[..n], dropped, max)
  }

  function CommittedOne(known: seq<KnownSource>, item: Recovered, dropped: set<Id>, max: nat): seq<KnownSource> {
    if item.symbolId in dropped || Lookup(known, item.symbolId).Some? then known
    else Window(known, max) + [KnownSource(item.symbolId, item.bytes, item.retained)]
  }

  /** Why an arrival may be refused. Anything else is refused only if no symbols explain the decoder and the arrival. */
  ghost predicate MayRefuse(e: Event, a: Moment, error: FecError, l: Limits) {
    match e
    case SourceArrives(id, source, _, _) =>
      && (error == WorkBudget ==> SourceBound(|a.rows|, CoefficientCount(a.rows), l.bytes) > l.work)
      && (error == MemoryCapacity ==> a.used + SourceReserve(a.rows, source.Retained(), l.bytes) > l.memory)
    case RepairArrives(_, span, _, _, coded, _) =>
      && (error == WorkBudget ==> RepairBound(|a.rows|, CoefficientCount(a.rows) + span, span, l.bytes) > l.work)
      && (error == MemoryCapacity ==> a.used + RepairReserve(a.rows, span, l.bytes) > l.memory)
      && (error == RowCapacity ==> |a.rows| == l.rows)
  }

  /** An accepted arrival adds its equation, reports exactly what this determines, and knows what dispatch kept. */
  ghost predicate Accepts(e: Event, a: Moment, b: Moment, items: seq<Recovered>, l: Limits) {
    match e
    case SourceArrives(id, source, _, dropped) =>
      if Lookup(a.known, id).Some? then
        Lookup(a.known, id) == Some(source.bytes) && items == [] && b.rows == a.rows && b.known == a.known
      else
        && Harvested(SubstitutedAll(a.rows, id, source.bytes), a.known, l.bytes, Outcome(items, b.rows))
        && exists r: nat :: b.known == Learned(a.known, id, source.bytes, r, items, dropped, l.symbols)
    case RepairArrives(first, span, repairId, seed, coded, dropped) =>
      && b.known == Committed(a.known, items, dropped, l.symbols)
      && exists row :: RowOfRepair(row, a.known, first, span, repairId, seed, coded)
                       && Harvested(a.rows + [row], a.known, l.bytes, Outcome(items, b.rows))
  }

  function Learned(known: seq<KnownSource>, id: Id, source: Bytes, retained: nat, items: seq<Recovered>,
                   dropped: set<Id>, max: nat): seq<KnownSource>
  {
    Committed(Window(known, max) + [KnownSource(id, source, retained)], items, dropped, max)
  }

  /** The same before anything was committed; here what dispatch drops does not matter. */
  ghost predicate Adopts(e: Event, a: Moment, b: Moment, items: seq<Recovered>, l: Limits) {
    match e
    case SourceArrives(id, source, _, _) =>
      if Lookup(a.known, id).Some? then
        Lookup(a.known, id) == Some(source.bytes) && items == [] && b.rows == a.rows && b.known == a.known
      else
        && Harvested(SubstitutedAll(a.rows, id, source.bytes), a.known, l.bytes, Outcome(items, b.rows))
        && exists r: nat :: b.known == Window(a.known, l.symbols) + [KnownSource(id, source.bytes, r)]
    case RepairArrives(first, span, repairId, seed, coded, _) =>
      && b.known == a.known
      && exists row :: RowOfRepair(row, a.known, first, span, repairId, seed, coded)
                       && Harvested(a.rows + [row], a.known, l.bytes, Outcome(items, b.rows))
  }

  lemma AdoptsCommits(e: Event, a: Moment, m: Moment, b: Moment, items: seq<Recovered>, l: Limits)
    requires Adopts(e, a, m, items, l)
    requires b.rows == m.rows && b.known == Committed(m.known, items, e.dropped, l.symbols)
    ensures Accepts(e, a, b, items, l)
  {
    hide Lookup, Window, Harvested, RowOfRepair, SubstitutedAll, Committed;
    match e
    case SourceArrives(id, source, _, dropped) =>
      if Lookup(a.known, id).None? {
        var r: nat :| m.known == Window(a.known, l.symbols) + [KnownSource(id, source.bytes, r)];
        assert b.known == Learned(a.known, id, source.bytes, r, items, dropped, l.symbols);
      } else {
        NothingCommits(m.known, m.rows, dropped, l.bytes, l.symbols);
      }
    case RepairArrives(_, _, _, _, _, _) =>
  }

  /** What one arrival does, refused or accepted. */
  ghost predicate Answers(e: Event, a: Moment, b: Moment, res: Result<seq<Recovered>, FecError>, l: Limits) {
    match res
    case Ok(items) => Accepts(e, a, b, items, l)
    case Err(error) => b == a && MayRefuse(e, a, error, l)
  }

  /** What one arrival may answer if the symbols x explain the decoder and the arrival is genuine for them. */
  ghost predicate Sound(x: Assignment, b: Moment, res: Result<seq<Recovered>, FecError>, max: nat) {
    && Explain(x, b.rows, b.known, max)
    && match res
       case Ok(items) => RecoveredTrue(x, items)
       case Err(error) => error in {WorkBudget, MemoryCapacity, RowCapacity}
  }

  ghost predicate Committable(items: seq<Recovered>, rows: seq<Row>, max: nat) {
    forall k :: 0 <= k < |items| ==>
      items[k].symbolId !in AllIds(rows) && 0 < |items[k].bytes| == items[k].retained <= max
  }

  lemma AdoptsCommittable(e: Event, a: Moment, b: Moment, items: seq<Recovered>, l: Limits)
    requires Adopts(e, a, b, items, l)
    ensures Committable(items, b.rows, l.bytes)
    ensures forall i, j :: 0 <= i < j < |items| ==> items[i].symbolId != items[j].symbolId
  {
    hide Lookup, Window, Harvested, RowOfRepair, SubstitutedAll, Committable;
    match e
    case SourceArrives(id, source, _, dropped) =>
      if Lookup(a.known, id).None? {
        HarvestCommits(SubstitutedAll(a.rows, id, source.bytes), a.known, l.bytes, Outcome(items, b.rows));
      } else {
        NothingCommits(b.known, b.rows, {}, l.bytes, l.symbols);
      }
    case RepairArrives(first, span, repairId, seed, coded, _) =>
      var row :| RowOfRepair(row, a.known, first, span, repairId, seed, coded)
                 && Harvested(a.rows + [row], a.known, l.bytes, Outcome(items, b.rows));
      HarvestCommits(a.rows + [row], a.known, l.bytes, Outcome(items, b.rows));
  }

  lemma HarvestCommits(rows: seq<Row>, known: seq<KnownSource>, max: nat, out: Outcome)
    requires Harvested(rows, known, max, out)
    ensures Committable(out.recovered, out.rows, max)
    ensures forall i, j :: 0 <= i < j < |out.recovered| ==> out.recovered[i].symbolId != out.recovered[j].symbolId
  {
    hide AllIds;
  }

  /** Commits one recovered symbol out of the batch's charge, or leaves it to dispatch. */
  method CommitItem(d: Decoder, item: Recovered, charge: Charge, dropped: set<Id>, ghost base: map<object, nat>)
    returns (rest: Charge)
    requires d.Valid() && d.Settled() && charge.token !in base && d in base
    requires d.budget.ledger == base[d := d.Owned()][charge.token := charge.bytes]
    requires item.symbolId !in AllIds(d.rows) && 0 < |item.bytes| == item.retained <= d.maxBytes
    requires item.retained <= charge.bytes
    modifies d`known, d`knownIds, d.budget
    ensures d.Valid() && d.Settled()
    ensures rest.token == charge.token && charge.bytes - item.retained <= rest.bytes
    ensures d.budget.ledger == base[d := d.Owned()][rest.token := rest.bytes]
    ensures d.known == CommittedOne(old(d.known), item, dropped, d.maxSymbols)
    ensures forall x :: old(d.Explained(x)) && item.symbolId in x && x[item.symbolId] == item.bytes ==> d.Explained(x)
  {
    hide Pending, Within, UniqueIds, KnownBytes, KnownIds, KnownFits, AllIds, Explain, Lookup, Window;
    rest := charge;
    if item.symbolId !in dropped {
      var part;
      part, rest := d.budget.Split(charge, item.retained);
      var res := d.CommitRecovered(item.symbolId, Buffer(item.bytes, item.retained, true), part.value);
      assert d.budget.ledger == base[d := d.Owned()][rest.token := rest.bytes];
    }
  }

  /** src/recovery.rs, `dispatch_recovered`, seen from the decoder: commits what was recovered, newest first. */
  method CommitBatch(d: Decoder, batch: Batch, dropped: set<Id>, ghost base: map<object, nat>)
    requires d.Valid() && d.Settled() && batch.charge.token !in base && d in base
    requires d.Accounted(base, batch) && Committable(batch.items, d.rows, d.maxBytes)
    modifies d`known, d`knownIds, d.budget
    ensures d.Valid() && d.Settled()
    ensures d.budget.ledger == base[d := d.Owned()]
    ensures d.known == Committed(old(d.known), batch.items, dropped, d.maxSymbols)
    ensures forall x :: old(d.Explained(x)) && RecoveredTrue(x, batch.items) ==> d.Explained(x)
  {
    hide Pending, Within, UniqueIds, KnownBytes, KnownIds, KnownFits, AllIds, Explain, Lookup, Window, CommittedOne;
    var charge := batch.charge;
    var n := |batch.items|;
    ghost var last := Committed(d.known, batch.items, dropped, d.maxSymbols);
    assert batch.items[..n] == batch.items;
    while n > 0
      invariant 0 <= n <= |batch.items|
      invariant d.Valid() && d.Settled()
      invariant charge.token == batch.charge.token && RecoveredBytes(batch.items[..n]) <= charge.bytes
      invariant d.budget.ledger == base[d := d.Owned()][charge.token := charge.bytes]
      invariant last == Committed(d.known, batch.items[..n], dropped, d.maxSymbols)
      invariant forall x :: old(d.Explained(x)) && RecoveredTrue(x, batch.items) ==> d.Explained(x)
    {
      n := n - 1;
      RecoveredBytesLast(batch.items, n);
      CommittedLast(d.known, batch.items, n, dropped, d.maxSymbols);
      charge := CommitItem(d, batch.items[n], charge, dropped, base);
    }
    d.budget.Drop(charge);
    assert d.budget.ledger == base[d := d.Owned()];
  }

  lemma CommittedLast(known: seq<KnownSource>, items: seq<Recovered>, n: nat, dropped: set<Id>, max: nat)
    requires n < |items|
    ensures Committed(known, items[..n + 1], dropped, max)
      == Committed(CommittedOne(known, items[n], dropped, max), items[..n], dropped, max)
  {
    assert items[..n + 1][..n] == items[..n];
  }

  /** Dispatch works through the recovered symbols from the last to the first. */
  lemma {:induction false} CommittedFront(known: seq<KnownSource>, item: Recovered, items: seq<Recovered>,
                                          dropped: set<Id>, max: nat)
    ensures Committed(known, [item] + items, dropped, max)
      == CommittedOne(Committed(known, items, dropped, max), item, dropped, max)
    decreases |items|
  {
    hide CommittedOne;
    var all, n := [item] + items, |items|;
    if items == [] {
      assert all == [item] && all[..0] == [];
    } else {
      assert all[n] == items[n - 1] && all[..n] == [item] + items[..n - 1];
      CommittedFront(CommittedOne(known, items[n - 1], dropped, max), item, items[..n - 1], dropped, max);
    }
  }

  /** Symbols that are not among the recovered ones do not matter. */
  lemma {:induction false} CommittedSame(known: seq<KnownSource>, items: seq<Recovered>, a: set<Id>, b: set<Id>,
                                         max: nat)
    requires forall k :: 0 <= k < |items| ==> (items[k].symbolId in a <==> items[k].symbolId in b)
    ensures Committed(known, items, a, max) == Committed(known, items, b, max)
    decreases |items|
  {
    if items != [] {
      var n := |items| - 1;
      CommittedSame(CommittedOne(known, items[n], a, max), items[..n], a, b, max);
    }
  }

  lemma {:induction false} CommittedNone(known: seq<KnownSource>, items: seq<Recovered>, dropped: set<Id>, max: nat)
    requires forall k :: 0 <= k < |items| ==> items[k].symbolId in dropped
    ensures Committed(known, items, dropped, max) == known
  {
    if items != [] {
      CommittedNone(known, items[..|items| - 1], dropped, max);
    }
  }

  /** One arrival together with the commits it causes. */
  method Step(d: Decoder, e: Event, workBudget: nat) returns (res: Result<seq<Recovered>, FecError>)
    requires d.Valid() && d.Settled() && e.Valid()
    modifies d`known, d`knownIds, d`rows, d`rowBytes, d.budget
    ensures d.Valid() && d.Settled()
    ensures d.budget.ledger == old(d.budget.ledger)[d := d.Owned()]
    ensures Answers(e, old(Now(d)), Now(d), res, LimitsOf(d, workBudget))
    ensures forall x :: old(d.Explained(x)) && GenuineEvent(x, e) ==> Sound(x, Now(d), res, d.maxBytes)
  {
    match e {
      case SourceArrives(id, source, oldestUnique, dropped) =>
        res := StepSource(d, id, source, oldestUnique, dropped, workBudget);
      case RepairArrives(first, span, repairId, seed, coded, dropped) =>
        res := StepRepair(d, first, span, repairId, seed, coded, dropped, workBudget);
    }
  }

  method StepSource(d: Decoder, id: Id, source: Buffer, oldestUnique: bool, dropped: set<Id>, workBudget: nat)
    returns (res: Result<seq<Recovered>, FecError>)
    requires d.Valid() && d.Settled() && source.Valid()
    modifies d`known, d`knownIds, d`rows, d`rowBytes, d.budget
    ensures d.Valid() && d.Settled()
    ensures d.budget.ledger == old(d.budget.ledger)[d := d.Owned()]
    ensures Answers(SourceArrives(id, source, oldestUnique, dropped), old(Now(d)), Now(d), res, LimitsOf(d, workBudget))
    ensures forall x :: old(d.Explained(x)) && id in x && x[id] == source.bytes ==> Sound(x, Now(d), res, d.maxBytes)
  {
    hide Pending, Within, UniqueIds, KnownBytes, KnownIds, KnownFits, AllIds, Explain, Lookup, Window, RecoveredTrue;
    hide SubstitutedAll, Harvested, Committed, SourceBound, SourceReserve, SourceWork, CoefficientCount, Committable;
    hide BatchBytes;
    var added, peak := d.AddSource(id, source, oldestUnique, workBudget);
    if added.Err? {
      return Err(added.error);
    }
    var items := added.value.items;
    ghost var e, middle := SourceArrives(id, source, oldestUnique, dropped), Now(d);
    AdoptsCommittable(e, old(Now(d)), middle, items, LimitsOf(d, workBudget));
    assert added.value.charge.token !in old(d.budget.ledger);
    CommitBatch(d, added.value, dropped, old(d.budget.ledger));
    AdoptsCommits(e, old(Now(d)), middle, Now(d), items, LimitsOf(d, workBudget));
    return Ok(items);
  }

  lemma NothingCommits(known: seq<KnownSource>, rows: seq<Row>, dropped: set<Id>, bytes: nat, max: nat)
    ensures Committable([], rows, bytes) && Committed(known, [], dropped, max) == known
  {
  }

  method StepRepair(d: Decoder, first: Id, span: nat, repairId: Id, seed: Id, coded: Bytes, dropped: set<Id>,
                    workBudget: nat)
    returns (res: Result<seq<Recovered>, FecError>)
    requires d.Valid() && d.Settled()
    modifies d`known, d`knownIds, d`rows, d`rowBytes, d.budget
    ensures d.Valid() && d.Settled()
    ensures d.budget.ledger == old(d.budget.ledger)[d := d.Owned()]
    ensures Answers(RepairArrives(first, span, repairId, seed, coded, dropped), old(Now(d)), Now(d), res,
                    LimitsOf(d, workBudget))
    ensures forall x :: old(d.Explained(x)) && GenuineRepair(x, first, span, repairId, seed, coded) ==>
      Sound(x, Now(d), res, d.maxBytes)
  {
    hide Pending, Within, UniqueIds, KnownBytes, KnownIds, KnownFits, AllIds, Explain, Lookup, Window, RecoveredTrue;
    hide RowOfRepair, Harvested, Committed, RepairBound, RepairReserve, RepairWork, CoefficientCount, Committable;
    hide BatchBytes;
    hide GenuineRepair, CloneWork;
    var added, row, peak := d.AddRepair(first, span, repairId, seed, coded, workBudget);
    if added.Err? {
      return Err(added.error);
    }
    var items := added.value.items;
    ghost var e, middle := RepairArrives(first, span, repairId, seed, coded, dropped), Now(d);
    AdoptsCommittable(e, old(Now(d)), middle, items, LimitsOf(d, workBudget));
    assert added.value.charge.token !in old(d.budget.ledger);
    CommitBatch(d, added.value, dropped, old(d.budget.ledger));
    AdoptsCommits(e, old(Now(d)), middle, Now(d), items, LimitsOf(d, workBudget));
    return Ok(items);
  }

  /**
   * src/fec.rs and src/recovery.rs over a whole run: one result for each arrival, `moments` before and after them.
   * Whatever arrives, in whatever order and however often, each arrival is answered exactly: it is refused for want
   * of work, memory or rows, or it reports everything that it makes determined. As long as the arrivals are genuine
   * for the symbols x, everything reported is the sender's symbol at its exact length and no arrival is called
   * contradictory or mis-sized. The budget holds for this decoder exactly what the decoder stores.
   */
  method Run(d: Decoder, events: seq<Event>, workBudget: nat)
    returns (results: seq<Result<seq<Recovered>, FecError>>, ghost moments: seq<Moment>)
    requires d.Valid() && d.Settled()
    requires forall i :: 0 <= i < |events| ==> events[i].Valid()
    modifies d`known, d`knownIds, d`rows, d`rowBytes, d.budget
    ensures d.Valid() && d.Settled()
    ensures d.budget.ledger == old(d.budget.ledger)[d := d.Owned()]
    ensures |results| == |events| && |moments| == |events| + 1
    ensures moments[0] == old(Now(d)) && moments[|events|] == Now(d)
    ensures forall i :: 0 <= i <= |events| ==> Steady(moments[i])
    ensures forall i :: 0 <= i < |events| ==>
      Answers(events[i], moments[i], moments[i + 1], results[i], LimitsOf(d, workBudget))
    ensures forall x, i :: 0 <= i < |events| && old(d.Explained(x)) && AllGenuine(x, events[..i + 1]) ==>
      Sound(x, moments[i + 1], results[i], d.maxBytes)
  {
    hide Pending, Within, UniqueIds, KnownBytes, KnownIds, AllIds, Explain, GenuineEvent, Answers, AllGenuine;
    hide KnownFits, RecoveredTrue;
    results, moments := [], [Now(d)];
    var i := 0;
    assert d.budget.ledger == old(d.budget.ledger)[d := d.Owned()];
    while i < |events|
      invariant 0 <= i <= |events| && |results| == i && |moments| == i + 1
      invariant d.Valid() && d.Settled()
      invariant d.budget.ledger == old(d.budget.ledger)[d := d.Owned()]
      invariant moments[0] == old(Now(d)) && moments[i] == Now(d)
      invariant forall k :: 0 <= k <= i ==> Steady(moments[k])
      invariant forall k :: 0 <= k < i ==>
        Answers(events[k], moments[k], moments[k + 1], results[k], LimitsOf(d, workBudget))
      invariant forall x, k :: 0 <= k < i && old(d.Explained(x)) && AllGenuine(x, events[..k + 1]) ==>
        Sound(x, moments[k + 1], results[k], d.maxBytes)
      invariant forall x :: old(d.Explained(x)) && AllGenuine(x, events[..i]) ==> d.Explained(x)
    {
      forall x | AllGenuine(x, events[..i + 1]) ensures AllGenuine(x, events[..i]) && GenuineEvent(x, events[i]) {
        AllGenuineLast(x, events, i);
      }
      var res := Step(d, events[i], workBudget);
      results, moments := results + [res], moments + [Now(d)];
      i := i + 1;
    }
  }
}
