/** Over a whole run the decoder knows exactly the symbols that everything it received determines. */
module Optimality {
  import opened Results
  import opened Galois
  import opened Rows
  import opened Elimination
  import opened Storage
  import opened Reduction
  import opened Determination
  import opened Repair
  import opened Substitution
  import opened Harvest
  import opened Decoding
  import opened Decoder
  import opened DecoderRuns

  /** What an arrival says about the symbols x, padded with zeros. */
  ghost predicate Says(x: Assignment, e: Event) {
    match e
    case SourceArrives(id, source, _, _) => Agrees(x, id, source.bytes)
    case RepairArrives(first, span, repairId, seed, coded, _) =>
      Sat(Row(RepairTerms(first, span, repairId, seed), coded), x)
  }

  ghost predicate AllSay(x: Assignment, events: seq<Event>) {
    forall i :: 0 <= i < |events| ==> Says(x, events[i])
  }

  /** Every solution of what arrived gives the symbol the same value. */
  ghost predicate Forced(events: seq<Event>, id: Id) {
    forall x, y, j: nat :: AllSay(x, events) && AllSay(y, events) ==> Cell(x, id, j) == Cell(y, id, j)
  }

  ghost predicate Solves(x: Assignment, m: Moment) {
    SatAll(m.rows, x) && KnownAgree(m.known, x)
  }

  /** The symbol arrived by itself or was reported as recovered. */
  ghost predicate Obtained(events: seq<Event>, results: seq<Result<seq<Recovered>, FecError>>, id: Id)
    requires |results| == |events|
  {
    exists i :: 0 <= i < |events| && Gives(events[i], results[i], id)
  }

  ghost predicate Gives(e: Event, res: Result<seq<Recovered>, FecError>, id: Id) {
    res.Ok? && (IsRecovered(res.value, id) || (e.SourceArrives? && e.id == id))
  }

  /** A recorded run in which nothing was refused, given up or forgotten. */
  ghost predicate Lossless(events: seq<Event>, moments: seq<Moment>, results: seq<Result<seq<Recovered>, FecError>>,
                           l: Limits)
  {
    && |results| == |events| && |moments| == |events| + 1
    && (forall i :: 0 <= i <= |events| ==> Steady(moments[i]))
    && (forall i :: 0 <= i < |events| ==>
          Answers(events[i], moments[i], moments[i + 1], results[i], l) && results[i].Ok? && events[i].dropped == {})
    && |moments[|events|].known| < l.symbols
  }

  // ----- commits

  function Entry(item: Recovered): KnownSource {
    KnownSource(item.symbolId, item.bytes, item.retained)
  }

  function Entries(items: seq<Recovered>): seq<KnownSource> {
    seq(|items|, k requires 0 <= k < |items| => Entry(items[|items| - 1 - k]))
  }

  ghost predicate Fresh(known: seq<KnownSource>, items: seq<Recovered>) {
    && (forall k :: 0 <= k < |items| ==> Lookup(known, items[k].symbolId).None?)
    && forall a, b :: 0 <= a < b < |items| ==> items[a].symbolId != items[b].symbolId
  }

  lemma {:induction false} CommittedGrows(known: seq<KnownSource>, items: seq<Recovered>, dropped: set<Id>, max: nat)
    ensures |known| <= |Committed(known, items, dropped, max)|
    decreases |items|
  {
    hide Lookup;
    if items != [] {
      var n := |items| - 1;
      CommittedGrows(CommittedOne(known, items[n], dropped, max), items[..n], dropped, max);
    }
  }

  /** Without eviction the committed symbols are appended, newest first. */
  lemma {:induction false} CommittedIs(known: seq<KnownSource>, items: seq<Recovered>, max: nat)
    requires Fresh(known, items) && |Committed(known, items, {}, max)| < max
    ensures Committed(known, items, {}, max) == known + Entries(items)
    decreases |items|
  {
    hide Lookup, CommittedOne, Entries, Entry;
    if items == [] {
      NoEntries();
    } else {
      var n := |items| - 1;
      var next := CommittedOne(known, items[n], {}, max);
      CommittedGrows(next, items[..n], {}, max);
      NotEvicted(known, items[n], max);
      FreshNext(known, items);
      CommittedIs(next, items[..n], max);
      EntriesLast(items);
      assert known + ([Entry(items[n])] + Entries(items[..n])) == known + [Entry(items[n])] + Entries(items[..n]);
    }
  }

  lemma NoEntries()
    ensures forall known: seq<KnownSource> :: known + Entries([]) == known
  {
  }

  lemma EntriesLast(items: seq<Recovered>)
    requires items != []
    ensures Entries(items) == [Entry(items[|items| - 1])] + Entries(items[..|items| - 1])
  {
  }

  lemma NotEvicted(known: seq<KnownSource>, item: Recovered, max: nat)
    requires Lookup(known, item.symbolId).None? && |CommittedOne(known, item, {}, max)| < max
    ensures CommittedOne(known, item, {}, max) == known + [Entry(item)]
  {
    hide Lookup;
  }

  lemma FreshNext(known: seq<KnownSource>, items: seq<Recovered>)
    requires Fresh(known, items) && items != []
    ensures Fresh(known + [Entry(items[|items| - 1])], items[..|items| - 1])
  {
    hide Lookup;
    var n := |items| - 1;
    forall k | 0 <= k < n ensures Lookup(known + [Entry(items[n])], items[..n][k].symbolId).None? {
      StillUnknown(known, Entry(items[n]), items[k].symbolId);
    }
  }

  lemma StillUnknown(known: seq<KnownSource>, source: KnownSource, id: Id)
    requires Lookup(known, id).None? && source.symbolId != id
    ensures Lookup(known + [source], id).None?
  {
  }

  lemma EntryAt(known: seq<KnownSource>, items: seq<Recovered>, k: nat)
    requires k < |items|
    ensures |Entries(items)| == |items| && (known + Entries(items))[|known| + |items| - 1 - k] == Entry(items[k])
  {
  }

  lemma EntriesAgree(known: seq<KnownSource>, items: seq<Recovered>, x: Assignment)
    ensures KnownAgree(known + Entries(items), x) <==> KnownAgree(known, x) && RecoveredAgree(x, items)
  {
    hide Agrees;
    var all, n := known + Entries(items), |items|;
    if KnownAgree(all, x) {
      forall i | 0 <= i < |known| ensures Agrees(x, known[i].symbolId, known[i].bytes) {
        assert all[i] == known[i];
      }
      forall k | 0 <= k < n ensures Agrees(x, items[k].symbolId, items[k].bytes) {
        EntryAt(known, items, k);
      }
    }
    if KnownAgree(known, x) && RecoveredAgree(x, items) {
      forall i | 0 <= i < |all| ensures Agrees(x, all[i].symbolId, all[i].bytes) {
        if i >= |known| {
          EntryAt(known, items, |known| + n - 1 - i);
        }
      }
    }
  }

  lemma PushAgree(known: seq<KnownSource>, source: KnownSource, x: Assignment)
    ensures KnownAgree(known + [source], x) <==> KnownAgree(known, x) && Agrees(x, source.symbolId, source.bytes)
  {
    hide Agrees;
    var all := known + [source];
    if KnownAgree(all, x) {
      forall i | 0 <= i < |known| ensures Agrees(x, known[i].symbolId, known[i].bytes) {
        assert all[i] == known[i];
      }
      assert all[|known|] == source;
    }
  }

  lemma EntriesKnown(known: seq<KnownSource>, items: seq<Recovered>, id: Id)
    ensures Lookup(known + Entries(items), id).Some? <==> Lookup(known, id).Some? || IsRecovered(items, id)
  {
    var all, n := known + Entries(items), |items|;
    if Lookup(all, id).Some? && Lookup(known, id).None? {
      var k := KnownAt(all, id);
      EntryAt(known, items, |known| + n - 1 - k);
    }
    if Lookup(known, id).Some? {
      var k := KnownAt(known, id);
      assert all[k].symbolId == id;
    }
    if IsRecovered(items, id) {
      var k :| 0 <= k < n && items[k].symbolId == id;
      EntryAt(known, items, k);
    }
  }

  lemma PushKnown(known: seq<KnownSource>, source: KnownSource, id: Id)
    ensures Lookup(known + [source], id).Some? <==> Lookup(known, id).Some? || source.symbolId == id
  {
    var all := known + [source];
    if Lookup(known, id).Some? {
      var k := KnownAt(known, id);
      assert all[k].symbolId == id;
    }
    assert all[|known|] == source;
  }

  // ----- one arrival

  lemma UnknownId(known: seq<KnownSource>, id: Id)
    ensures id in KnownIds(known) <==> Lookup(known, id).Some?
  {
  }

  lemma HarvestedSat(rows: seq<Row>, known: seq<KnownSource>, max: nat, out: Outcome, x: Assignment)
    requires Harvested(rows, known, max, out)
    ensures SatAll(rows, x) <==> SatAll(out.rows, x) && RecoveredAgree(x, out.recovered)
  {
  }

  // What a new source teaches: itself and the recovered symbols.
  lemma LearnedIs(a: Moment, id: Id, source: Bytes, r: nat, items: seq<Recovered>, rows: seq<Row>, l: Limits)
    requires Steady(a) && Lookup(a.known, id).None?
    requires Harvested(SubstitutedAll(a.rows, id, source), a.known, l.bytes, Outcome(items, rows))
    requires |Learned(a.known, id, source, r, items, {}, l.symbols)| < l.symbols
    ensures Learned(a.known, id, source, r, items, {}, l.symbols) ==
        a.known + [KnownSource(id, source, r)] + Entries(items)
  {
    hide Lookup, Committed, SubstitutedAll, Harvested, KnownIds, AllIds, Pending, UniqueIds, Entries;
    var base := Window(a.known, l.symbols) + [KnownSource(id, source, r)];
    CommittedGrows(base, items, {}, l.symbols);
    PendingIsNormal(a.rows);
    SubstitutedAllFacts(a.rows, id, source);
    PushIds(a.known, KnownSource(id, source, r));
    SubstitutedDisjoint(a, id, source);
    HarvestAnywhere(SubstitutedAll(a.rows, id, source), a.known, base, l.bytes, Outcome(items, rows));
    CommittedIs(base, items, l.symbols);
  }

  lemma PendingIsNormal(rows: seq<Row>)
    requires Pending(rows)
    ensures AllNormal(rows)
  {
  }

  lemma PushIds(known: seq<KnownSource>, source: KnownSource)
    ensures KnownIds(known + [source]) == KnownIds(known) + {source.symbolId}
  {
    var all := known + [source];
    forall id ensures id in KnownIds(all) <==> id in KnownIds(known) + {source.symbolId} {
      UnknownId(all, id);
      UnknownId(known, id);
      PushKnown(known, source, id);
    }
  }

  lemma SubstitutedDisjoint(a: Moment, id: Id, source: Bytes)
    requires Steady(a)
    ensures AllIds(SubstitutedAll(a.rows, id, source)) !! KnownIds(a.known) + {id}
  {
    PendingIsNormal(a.rows);
    SubstitutedAllFacts(a.rows, id, source);
    hide *;
    SteadyDisjoint(a);
  }

  lemma SteadyDisjoint(a: Moment)
    requires Steady(a)
    ensures AllIds(a.rows) !! KnownIds(a.known)
  {
  }

  // The equations mention no known symbol, so what is recovered is new.
  lemma HarvestAnywhere(rows: seq<Row>, known: seq<KnownSource>, base: seq<KnownSource>, max: nat, out: Outcome)
    requires Harvested(rows, known, max, out) && AllIds(rows) !! KnownIds(base)
    ensures Fresh(base, out.recovered)
  {
    hide AllIds, KnownIds, Lookup;
    forall k | 0 <= k < |out.recovered| ensures Lookup(base, out.recovered[k].symbolId).None? {
      UnknownId(base, out.recovered[k].symbolId);
    }
  }

  lemma SourceSolves(a: Moment, b: Moment, id: Id, source: Bytes, r: nat, items: seq<Recovered>, l: Limits,
                     x: Assignment)
    requires Steady(a) && Lookup(a.known, id).None? && |b.known| < l.symbols
    requires Harvested(SubstitutedAll(a.rows, id, source), a.known, l.bytes, Outcome(items, b.rows))
    requires b.known == Learned(a.known, id, source, r, items, {}, l.symbols)
    ensures Solves(x, b) <==> Solves(x, a) && Agrees(x, id, source)
  {
    hide SatAll, KnownAgree, RecoveredAgree, Agrees, Harvested, SubstitutedAll, Steady, Lookup, Learned, Entries;
    LearnedIs(a, id, source, r, items, b.rows, l);
    EntriesAgree(a.known + [KnownSource(id, source, r)], items, x);
    PushAgree(a.known, KnownSource(id, source, r), x);
    HarvestedSat(SubstitutedAll(a.rows, id, source), a.known, l.bytes, Outcome(items, b.rows), x);
    if Agrees(x, id, source) {
      SubstitutedAllSat(a.rows, id, source, x);
    }
  }

  lemma SourceKnown(a: Moment, b: Moment, id: Id, source: Bytes, r: nat, items: seq<Recovered>, l: Limits, k: Id)
    requires Steady(a) && Lookup(a.known, id).None? && |b.known| < l.symbols
    requires Harvested(SubstitutedAll(a.rows, id, source), a.known, l.bytes, Outcome(items, b.rows))
    requires b.known == Learned(a.known, id, source, r, items, {}, l.symbols)
    ensures Lookup(b.known, k).Some? <==> Lookup(a.known, k).Some? || k == id || IsRecovered(items, k)
  {
    hide IsRecovered, Harvested, SubstitutedAll, Steady, Lookup, Learned, Entries;
    LearnedIs(a, id, source, r, items, b.rows, l);
    EntriesKnown(a.known + [KnownSource(id, source, r)], items, k);
    PushKnown(a.known, KnownSource(id, source, r), k);
  }

  // A repair's equation mentions no known symbol.
  lemma RepairDisjoint(a: Moment, row: Row, first: Id, span: nat, repairId: Id, seed: Id, coded: Bytes)
    requires Steady(a) && RowOfRepair(row, a.known, first, span, repairId, seed, coded)
    ensures AllIds(a.rows + [row]) !! KnownIds(a.known)
  {
    hide Pending, UniqueIds, Lookup, KnownIds, AllIds;
    var all := a.rows + [row];
    assert all[..|all| - 1] == a.rows;
    AllIdsInit(all);
    forall id | id in Ids(row.coefficients) ensures id !in KnownIds(a.known) {
      UnknownId(a.known, id);
    }
  }

  lemma LastSat(rows: seq<Row>, row: Row, x: Assignment)
    ensures SatAll(rows + [row], x) <==> SatAll(rows, x) && Sat(row, x)
  {
    hide Sat;
    var all := rows + [row];
    if SatAll(all, x) {
      forall i | 0 <= i < |rows| ensures Sat(rows[i], x) {
        assert all[i] == rows[i];
      }
      assert all[|rows|] == row;
    }
  }

  lemma RepairSays(row: Row, known: seq<KnownSource>, first: Id, span: nat, repairId: Id, seed: Id, coded: Bytes,
                   x: Assignment)
    requires RowOfRepair(row, known, first, span, repairId, seed, coded) && KnownAgree(known, x)
    ensures Sat(row, x) <==> Sat(Row(RepairTerms(first, span, repairId, seed), coded), x)
  {
    hide KnownAgree, Sat, RepairTerms, Lookup;
  }

  lemma RepairIs(a: Moment, b: Moment, row: Row, first: Id, span: nat, repairId: Id, seed: Id, coded: Bytes,
                 items: seq<Recovered>, l: Limits)
    requires Steady(a) && |b.known| < l.symbols && b.known == Committed(a.known, items, {}, l.symbols)
    requires RowOfRepair(row, a.known, first, span, repairId, seed, coded)
    requires Harvested(a.rows + [row], a.known, l.bytes, Outcome(items, b.rows))
    ensures b.known == a.known + Entries(items)
  {
    hide Steady, RowOfRepair, Harvested, AllIds, KnownIds, Lookup, Committed, Entries;
    RepairDisjoint(a, row, first, span, repairId, seed, coded);
    HarvestAnywhere(a.rows + [row], a.known, a.known, l.bytes, Outcome(items, b.rows));
    CommittedIs(a.known, items, l.symbols);
  }

  lemma RepairSolves(a: Moment, b: Moment, row: Row, first: Id, span: nat, repairId: Id, seed: Id, coded: Bytes,
                     items: seq<Recovered>, l: Limits, x: Assignment)
    requires Steady(a) && |b.known| < l.symbols && b.known == Committed(a.known, items, {}, l.symbols)
    requires RowOfRepair(row, a.known, first, span, repairId, seed, coded)
    requires Harvested(a.rows + [row], a.known, l.bytes, Outcome(items, b.rows))
    ensures Solves(x, b) <==> Solves(x, a) && Sat(Row(RepairTerms(first, span, repairId, seed), coded), x)
  {
    hide SatAll, Sat, KnownAgree, RecoveredAgree, Steady, RowOfRepair, Harvested, Committed, Entries, RepairTerms;
    RepairIs(a, b, row, first, span, repairId, seed, coded, items, l);
    EntriesAgree(a.known, items, x);
    HarvestedSat(a.rows + [row], a.known, l.bytes, Outcome(items, b.rows), x);
    LastSat(a.rows, row, x);
    if KnownAgree(a.known, x) {
      RepairSays(row, a.known, first, span, repairId, seed, coded, x);
    }
  }

  // A source that is already known says nothing new.
  lemma RepeatSays(known: seq<KnownSource>, id: Id, source: Bytes, x: Assignment)
    requires Lookup(known, id) == Some(source) && KnownAgree(known, x)
    ensures Agrees(x, id, source)
  {
    var k := KnownAt(known, id);
  }

  /** An accepted arrival adds to the decoder's equations exactly what it says. */
  lemma StepSolves(e: Event, a: Moment, b: Moment, items: seq<Recovered>, l: Limits, x: Assignment)
    requires Steady(a) && Accepts(e, a, b, items, l) && e.dropped == {} && |b.known| < l.symbols
    ensures Solves(x, b) <==> Solves(x, a) && Says(x, e)
  {
    hide SatAll, Sat, KnownAgree, Steady, RowOfRepair, Harvested, Committed, Agrees, Lookup, SubstitutedAll, Learned;
    hide RepairTerms;
    match e
    case SourceArrives(id, source, _, _) =>
      if Lookup(a.known, id).Some? {
        if KnownAgree(a.known, x) { RepeatSays(a.known, id, source.bytes, x); }
      } else {
        var r: nat :| b.known == Learned(a.known, id, source.bytes, r, items, {}, l.symbols);
        SourceSolves(a, b, id, source.bytes, r, items, l, x);
      }
    case RepairArrives(first, span, repairId, seed, coded, _) =>
      var row :| RowOfRepair(row, a.known, first, span, repairId, seed, coded)
                 && Harvested(a.rows + [row], a.known, l.bytes, Outcome(items, b.rows));
      RepairSolves(a, b, row, first, span, repairId, seed, coded, items, l, x);
  }

  /** An accepted arrival makes known what it brings and what it reports, and nothing else. */
  lemma StepKnown(e: Event, a: Moment, b: Moment, items: seq<Recovered>, l: Limits, k: Id)
    requires Steady(a) && Accepts(e, a, b, items, l) && e.dropped == {} && |b.known| < l.symbols
    ensures Lookup(b.known, k).Some? <==> Lookup(a.known, k).Some? || Gives(e, Ok(items), k)
  {
    hide Steady, RowOfRepair, Harvested, Committed, Lookup, SubstitutedAll, Learned, Entries;
    match e
    case SourceArrives(id, source, _, _) =>
      if Lookup(a.known, id).None? {
        var r: nat :| b.known == Learned(a.known, id, source.bytes, r, items, {}, l.symbols);
        SourceKnown(a, b, id, source.bytes, r, items, l, k);
      }
    case RepairArrives(first, span, repairId, seed, coded, _) =>
      var row :| RowOfRepair(row, a.known, first, span, repairId, seed, coded)
                 && Harvested(a.rows + [row], a.known, l.bytes, Outcome(items, b.rows));
      RepairIs(a, b, row, first, span, repairId, seed, coded, items, l);
      EntriesKnown(a.known, items, k);
  }

  lemma AcceptsGrows(e: Event, a: Moment, b: Moment, items: seq<Recovered>, l: Limits)
    requires Accepts(e, a, b, items, l)
    ensures |a.known| <= |b.known|
  {
    hide RowOfRepair, Harvested, Committed, Lookup, SubstitutedAll;
    match e
    case SourceArrives(id, source, _, dropped) =>
      if Lookup(a.known, id).None? {
        var r: nat :| b.known == Learned(a.known, id, source.bytes, r, items, dropped, l.symbols);
        CommittedGrows(Window(a.known, l.symbols) + [KnownSource(id, source.bytes, r)], items, dropped, l.symbols);
      }
    case RepairArrives(_, _, _, _, _, dropped) =>
      CommittedGrows(a.known, items, dropped, l.symbols);
  }

  // ----- whole runs

  lemma PrefixLossless(events: seq<Event>, moments: seq<Moment>, results: seq<Result<seq<Recovered>, FecError>>,
                       l: Limits)
    requires Lossless(events, moments, results, l) && events != []
    ensures var n := |events| - 1;
      && Accepts(events[n], moments[n], moments[n + 1], results[n].value, l)
      && Lossless(events[..n], moments[..n + 1], results[..n], l)
  {
    hide Accepts, MayRefuse, Steady;
    var n := |events| - 1;
    assert Answers(events[n], moments[n], moments[n + 1], results[n], l);
    AcceptsGrows(events[n], moments[n], moments[n + 1], results[n].value, l);
  }

  /** After any lossless run the decoder's equations have exactly the solutions of everything that arrived. */
  lemma {:induction false} RunSolves(events: seq<Event>, moments: seq<Moment>,
                                     results: seq<Result<seq<Recovered>, FecError>>, l: Limits, x: Assignment)
    requires Lossless(events, moments, results, l)
    ensures Solves(x, moments[|events|]) <==> Solves(x, moments[0]) && AllSay(x, events)
    decreases |events|
  {
    hide Answers, Accepts, Steady, Solves, Says;
    if events != [] {
      var n := |events| - 1;
      PrefixLossless(events, moments, results, l);
      RunSolves(events[..n], moments[..n + 1], results[..n], l, x);
      StepSolves(events[n], moments[n], moments[n + 1], results[n].value, l, x);
      assert AllSay(x, events) <==> AllSay(x, events[..n]) && Says(x, events[n]) by {
        assert events == events[..n] + [events[n]];
      }
    }
  }

  lemma {:induction false} RunKnown(events: seq<Event>, moments: seq<Moment>,
                                    results: seq<Result<seq<Recovered>, FecError>>, l: Limits, id: Id)
    requires Lossless(events, moments, results, l)
    ensures Lookup(moments[|events|].known, id).Some? <==>
      Lookup(moments[0].known, id).Some? || Obtained(events, results, id)
    decreases |events|
  {
    hide Answers, Accepts, Steady, Lookup, Gives;
    if events != [] {
      var n := |events| - 1;
      PrefixLossless(events, moments, results, l);
      RunKnown(events[..n], moments[..n + 1], results[..n], l, id);
      StepKnown(events[n], moments[n], moments[n + 1], results[n].value, l, id);
      assert Obtained(events, results, id) <==>
             Obtained(events[..n], results[..n], id) || Gives(events[n], results[n], id) by {
        forall i | 0 <= i < n
          ensures Gives(events[i], results[i], id) <==> Gives(events[..n][i], results[..n][i], id)
        {
        }
      }
    }
  }

  // ----- what is not known is free

  /** x with the known symbols set to their known values. */
  function Overlay(x: Assignment, known: seq<KnownSource>): Assignment {
    map id | id in x.Keys + KnownIds(known) :: var source := Lookup(known, id);
      if source.Some? then source.value else x[id]
  }

  lemma OverlayAgrees(x: Assignment, known: seq<KnownSource>)
    requires UniqueIds(known)
    ensures KnownAgree(known, Overlay(x, known))
  {
    forall i | 0 <= i < |known| ensures Agrees(Overlay(x, known), known[i].symbolId, known[i].bytes) {
      var k := KnownAt(known, known[i].symbolId);
      assert known[i].symbolId in KnownIds(known);
    }
  }

  lemma OverlayCell(x: Assignment, known: seq<KnownSource>, id: Id, j: nat)
    requires Lookup(known, id).None?
    ensures Cell(Overlay(x, known), id, j) == Cell(x, id, j)
  {
    UnknownId(known, id);
  }

  lemma {:induction false} OverlayDot(terms: Terms, x: Assignment, known: seq<KnownSource>, j: nat)
    requires forall i :: 0 <= i < |terms| ==> Lookup(known, terms[i].0).None?
    ensures Dot(terms, Overlay(x, known), j) == Dot(terms, x, j)
  {
    hide Overlay, Lookup, Cell, Add, Mul;
    if terms != [] {
      OverlayCell(x, known, terms[0].0, j);
      OverlayDot(terms[1..], x, known, j);
    }
  }

  lemma OverlaySolves(x: Assignment, m: Moment)
    requires Steady(m) && SatAll(m.rows, x)
    ensures Solves(Overlay(x, m.known), m)
  {
    hide Pending, Overlay, Dot, Lookup, KnownIds, Agrees;
    OverlayAgrees(x, m.known);
    forall i, j: nat | 0 <= i < |m.rows|
      ensures Dot(m.rows[i].coefficients, Overlay(x, m.known), j) == Dot(m.rows[i].coefficients, x, j)
    {
      forall t | 0 <= t < |m.rows[i].coefficients| ensures Lookup(m.known, m.rows[i].coefficients[t].0).None? {
        assert m.rows[i].coefficients[t].0 in AllIds(m.rows);
        UnknownId(m.known, m.rows[i].coefficients[t].0);
      }
      OverlayDot(m.rows[i].coefficients, x, m.known, j);
    }
    forall i | 0 <= i < |m.rows| ensures Sat(m.rows[i], Overlay(x, m.known)) {
      assert Sat(m.rows[i], x);
    }
  }

  lemma PendingReportsNothing(rows: seq<Row>, id: Id)
    requires Pending(rows)
    ensures Solved(rows, |rows|) && !IsReported(rows, id)
  {
    hide Reported, Coef;
    if IsReported(rows, id) {
      var k :| 0 <= k < |Reported(rows)| && Reported(rows)[k].0 == id;
      var i := ReportedFrom(rows, k);
    }
  }

  lemma UnknownIsFree(m: Moment, id: Id) returns (x: Assignment, y: Assignment)
    requires Steady(m) && Lookup(m.known, id).None?
    ensures Solves(x, m) && Solves(y, m) && Cell(x, id, 0) != Cell(y, id, 0)
  {
    hide SatAll, Solved, IsReported, Overlay, Lookup, Cell, Solves, KnownIds, AllIds, UniqueIds;
    PendingReportsNothing(m.rows, id);
    hide Pending;
    SolvedPivots(m.rows, |m.rows|);
    Solvable(m.rows, |m.rows|);
    var p := PivotValues(m.rows, |m.rows|);
    var q := UnreportedIsFree(m.rows, |m.rows|, p, id);
    x, y := Overlay(p, m.known), Overlay(q, m.known);
    OverlaySolves(p, m);
    OverlaySolves(q, m);
    OverlayCell(p, m.known, id, 0);
    OverlayCell(q, m.known, id, 0);
  }

  /**
   * A decoder that starts empty and is spared refusals and evictions loses nothing: whatever arrives, in whatever
   * order, a symbol was obtained if and only if everything that arrived determines it.
   */
  lemma Optimal(events: seq<Event>, moments: seq<Moment>, results: seq<Result<seq<Recovered>, FecError>>, l: Limits,
                id: Id)
    requires Lossless(events, moments, results, l) && moments[0].rows == [] && moments[0].known == []
    ensures Obtained(events, results, id) <==> Forced(events, id)
  {
    hide Answers, Steady, Says, Obtained, AllSay, Solves, Lookup, Cell;
    var last := moments[|events|];
    RunKnown(events, moments, results, l, id);
    assert Lookup(moments[0].known, id).None?;
    forall x ensures AllSay(x, events) <==> Solves(x, last) {
      RunSolves(events, moments, results, l, x);
      EmptySolves(moments[0], x);
    }
    if Lookup(last.known, id).None? {
      var x, y := UnknownIsFree(last, id);
    } else {
      forall x, y, j: nat | Solves(x, last) && Solves(y, last) ensures Cell(x, id, j) == Cell(y, id, j) {
        KnownIsFixed(last, id, x, j);
        KnownIsFixed(last, id, y, j);
      }
    }
  }

  /** Two such decoders that received the same in any two orders, however often, obtained the same symbols. */
  lemma OrderDoesNotMatter(events: seq<Event>, moments: seq<Moment>, results: seq<Result<seq<Recovered>, FecError>>,
                           events': seq<Event>, moments': seq<Moment>, results': seq<Result<seq<Recovered>, FecError>>,
                           l: Limits, id: Id)
    requires Lossless(events, moments, results, l) && moments[0].rows == [] && moments[0].known == []
    requires Lossless(events', moments', results', l) && moments'[0].rows == [] && moments'[0].known == []
    requires forall e :: e in events <==> e in events'
    ensures Obtained(events, results, id) <==> Obtained(events', results', id)
  {
    hide Lossless, Obtained, Says, Cell;
    Optimal(events, moments, results, l, id);
    Optimal(events', moments', results', l, id);
    forall x ensures AllSay(x, events) <==> AllSay(x, events') {
      SameSay(x, events, events');
      SameSay(x, events', events);
    }
  }

  lemma SameSay(x: Assignment, events: seq<Event>, events': seq<Event>)
    requires forall e :: e in events' ==> e in events
    ensures AllSay(x, events) ==> AllSay(x, events')
  {
    hide Says;
    if AllSay(x, events) {
      forall i | 0 <= i < |events'| ensures Says(x, events'[i]) {
        assert events'[i] in events;
      }
    }
  }

  lemma EmptySolves(m: Moment, x: Assignment)
    requires m.rows == [] && m.known == []
    ensures Solves(x, m)
  {
  }

  lemma KnownIsFixed(m: Moment, id: Id, x: Assignment, j: nat)
    requires Solves(x, m) && Lookup(m.known, id).Some?
    ensures Cell(x, id, j) == At(Lookup(m.known, id).value, j)
  {
    var k := KnownAt(m.known, id);
    assert Agrees(x, m.known[k].symbolId, m.known[k].bytes);
  }
}
