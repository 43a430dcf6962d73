/** A connection that drops nothing delivers everything that the datagrams it received determine. */
module Completeness {
  import opened Results
  import opened Galois
  import opened Varint
  import opened Rows
  import opened Elimination
  import opened Harvest
  import opened Reduction
  import opened Decoding
  import opened Substitution
  import opened Repair
  import opened RepairCodec
  import opened SourceCodec
  import opened Decoder
  import opened DecoderRuns
  import opened Optimality
  import opened Inflow
  import opened Connection

  ghost predicate AllHere<F>(records: seq<Record>, ids: map<F, nat>, p: Progress<F>) {
    forall k :: 0 <= k < |records| ==> Landed(records[k], ids, p)
  }

  /** The records of every known symbol have landed. */
  ghost predicate KnownHere<F>(known: seq<KnownSource>, ids: map<F, nat>, p: Progress<F>, max: nat) {
    forall j :: 0 <= j < |known| ==> AllHere(RecordsOf(known[j].bytes, max), ids, p)
  }

  /** A recorded run in which no drop was counted, no row was missing and no source had to be forgotten. */
  ghost predicate Undisturbed<F>(arrivals: seq<Arrival>, ids: map<F, nat>, snaps: seq<Snapshot<F>>,
                                 reports: seq<Report>, l: Limits)
  {
    && |reports| == |arrivals| && |snaps| == |arrivals| + 1
    && (forall i :: 0 <= i <= |arrivals| ==> Steady(snaps[i].moment))
    && (forall i :: 0 <= i < |arrivals| ==>
          Served(arrivals[i], ids, snaps[i], snaps[i + 1], reports[i], l) && !reports[i].closed)
    && snaps[|arrivals|].progress.dropped == snaps[0].progress.dropped
    && |snaps[|arrivals|].moment.known| < l.symbols
  }

  ghost predicate WellFormed(arrivals: seq<Arrival>, max: nat) {
    forall i :: 0 <= i < |arrivals| ==> EventOf(arrivals[i].datagram, max, arrivals[i].oldestUnique, {}).Some?
  }

  /** What arrived, to the decoder. */
  ghost function Events(arrivals: seq<Arrival>, max: nat): seq<Event>
    requires WellFormed(arrivals, max)
  {
    seq(|arrivals|,
      i requires 0 <= i < |arrivals| => EventOf(arrivals[i].datagram, max, arrivals[i].oldestUnique, {}).value)
  }

  ghost function Moments<F>(snaps: seq<Snapshot<F>>): seq<Moment> {
    seq(|snaps|, i requires 0 <= i < |snaps| => snaps[i].moment)
  }

  ghost function Found(reports: seq<Report>): seq<Result<seq<Recovered>, FecError>> {
    seq(|reports|, i requires 0 <= i < |reports| => Ok(reports[i].items))
  }

  // ----- nothing is dropped at any step

  lemma {:induction false} DropsRise<F>(arrivals: seq<Arrival>, ids: map<F, nat>, snaps: seq<Snapshot<F>>,
                                        reports: seq<Report>, l: Limits, i: nat, j: nat)
    requires |reports| == |arrivals| && |snaps| == |arrivals| + 1 && i <= j <= |arrivals|
    requires forall i :: 0 <= i < |arrivals| ==> Served(arrivals[i], ids, snaps[i], snaps[i + 1], reports[i], l)
    ensures snaps[i].progress.dropped <= snaps[j].progress.dropped
    decreases j
  {
    hide Answered, ItemsReached, LossExcused, RepeatsIn, AllReached, RecordsOf, Grows, Fills, Lasts;
    if i < j {
      DropsRise(arrivals, ids, snaps, reports, l, i, j - 1);
      assert Served(arrivals[j - 1], ids, snaps[j - 1], snaps[j], reports[j - 1], l);
    }
  }

  lemma SameDrops<F>(arrivals: seq<Arrival>, ids: map<F, nat>, snaps: seq<Snapshot<F>>, reports: seq<Report>, l: Limits,
                     i: nat)
    requires Undisturbed(arrivals, ids, snaps, reports, l) && i <= |arrivals|
    ensures snaps[i].progress.dropped == snaps[0].progress.dropped
  {
    hide Served, Steady;
    DropsRise(arrivals, ids, snaps, reports, l, 0, i);
    DropsRise(arrivals, ids, snaps, reports, l, i, |arrivals|);
  }

  /** So every datagram was well formed and the decoder took it. */
  lemma AnsweredIsTaken(a: Arrival, was: Moment, now: Moment, r: Report, l: Limits)
    requires Answered(a, was, now, r, false, l) && !r.closed
    ensures r.lost == {} && !r.refused && EventOf(a.datagram, l.bytes, a.oldestUnique, {}).Some?
    ensures Accepts(EventOf(a.datagram, l.bytes, a.oldestUnique, {}).value, was, now, r.items, l)
  {
    hide Accepts, Ignored, DecodeSource, DecodeRepair;
  }

  lemma StepTaken<F>(arrivals: seq<Arrival>, ids: map<F, nat>, snaps: seq<Snapshot<F>>, reports: seq<Report>, l: Limits,
                     i: nat)
    requires Undisturbed(arrivals, ids, snaps, reports, l) && i < |arrivals|
    ensures EventOf(arrivals[i].datagram, l.bytes, arrivals[i].oldestUnique, {}).Some?
    ensures Accepts(EventOf(arrivals[i].datagram, l.bytes, arrivals[i].oldestUnique, {}).value, snaps[i].moment,
                    snaps[i + 1].moment, reports[i].items, l)
  {
    hide Answered, Accepts, EventOf, Steady, ItemsReached, LossExcused, RepeatsIn, AllReached, RecordsOf, Onward;
    SameDrops(arrivals, ids, snaps, reports, l, i);
    SameDrops(arrivals, ids, snaps, reports, l, i + 1);
    assert Served(arrivals[i], ids, snaps[i], snaps[i + 1], reports[i], l);
    AnsweredIsTaken(arrivals[i], snaps[i].moment, snaps[i + 1].moment, reports[i], l);
  }

  lemma RunIsLossless<F>(arrivals: seq<Arrival>, ids: map<F, nat>, snaps: seq<Snapshot<F>>, reports: seq<Report>,
                         l: Limits)
    requires Undisturbed(arrivals, ids, snaps, reports, l)
    ensures WellFormed(arrivals, l.bytes)
    ensures Lossless(Events(arrivals, l.bytes), Moments(snaps), Found(reports), l)
  {
    hide Accepts, EventOf, Served, Steady;
    forall i | 0 <= i < |arrivals|
      ensures EventOf(arrivals[i].datagram, l.bytes, arrivals[i].oldestUnique, {}).Some?
      ensures Accepts(EventOf(arrivals[i].datagram, l.bytes, arrivals[i].oldestUnique, {}).value, snaps[i].moment,
                      snaps[i + 1].moment, reports[i].items, l)
      ensures EventOf(arrivals[i].datagram, l.bytes, arrivals[i].oldestUnique, {}).value.dropped == {}
    {
      StepTaken(arrivals, ids, snaps, reports, l, i);
      NothingDropped(arrivals[i], l.bytes);
    }
    var events, moments, results := Events(arrivals, l.bytes), Moments(snaps), Found(reports);
    forall i | 0 <= i < |events|
      ensures Answers(events[i], moments[i], moments[i + 1], results[i], l) && results[i].Ok? && events[i].dropped == {}
    {
    }
  }

  lemma NothingDropped(a: Arrival, max: nat)
    requires EventOf(a.datagram, max, a.oldestUnique, {}).Some?
    ensures EventOf(a.datagram, max, a.oldestUnique, {}).value.dropped == {}
  {
    hide DecodeSource, DecodeRepair;
  }

  // ----- what is known has landed

  lemma HereStays<F>(known: seq<KnownSource>, ids: map<F, nat>, was: Progress<F>, now: Progress<F>, max: nat,
                     clock: nat)
    requires KnownHere(known, ids, was, max) && Onward(ids, was, now, clock) && was.dropped == now.dropped
    ensures KnownHere(known, ids, now, max)
  {
    hide Landed, Onward, RecordsOf;
    forall j, k | 0 <= j < |known| && 0 <= k < |RecordsOf(known[j].bytes, max)|
      ensures Landed(RecordsOf(known[j].bytes, max)[k], ids, now)
    {
      LandedStays(RecordsOf(known[j].bytes, max)[k], ids, was, now, clock);
    }
  }

  lemma ReachedIsHere<F>(records: seq<Record>, ids: map<F, nat>, was: Progress<F>, now: Progress<F>, clock: nat)
    requires AllReached(records, ids, was, now, clock) && was.dropped == now.dropped
    ensures AllHere(records, ids, now)
  {
    hide Landed, Reached;
    forall k | 0 <= k < |records| ensures Landed(records[k], ids, now) {
      ReachedIsLanded(records[k], ids, was, now, clock);
    }
  }

  lemma EntriesAre(items: seq<Recovered>)
    ensures |Entries(items)| == |items|
    ensures forall j :: 0 <= j < |items| ==> Entries(items)[j].bytes == items[|items| - 1 - j].bytes
  {
    forall j | 0 <= j < |items| ensures Entries(items)[j].bytes == items[|items| - 1 - j].bytes {
      assert Entries(items)[j] == Entry(items[|items| - 1 - j]);
    }
  }

  lemma EntriesHere<F>(items: seq<Recovered>, ids: map<F, nat>, was: Progress<F>, now: Progress<F>, max: nat,
                       clock: nat)
    requires ItemsReached(items, {}, max, ids, was, now, clock) && was.dropped == now.dropped
    ensures KnownHere(Entries(items), ids, now, max)
  {
    hide AllHere, AllReached, RecordsOf, Entries;
    EntriesAre(items);
    forall j | 0 <= j < |Entries(items)| ensures AllHere(RecordsOf(Entries(items)[j].bytes, max), ids, now) {
      ReachedIsHere(RecordsOf(items[|items| - 1 - j].bytes, max), ids, was, now, clock);
    }
  }

  lemma HereConcat<F>(a: seq<KnownSource>, b: seq<KnownSource>, ids: map<F, nat>, p: Progress<F>, max: nat)
    requires KnownHere(a, ids, p, max) && KnownHere(b, ids, p, max)
    ensures KnownHere(a + b, ids, p, max)
  {
    hide AllHere, RecordsOf;
  }

  // A source that was new has landed.
  lemma SourceHere<F>(id: Id, a: Arrival, r: nat, ids: map<F, nat>, was: Snapshot<F>, now: Snapshot<F>, report: Report,
                      l: Limits)
    requires Served(a, ids, was, now, report, l) && was.progress.dropped == now.progress.dropped
    requires Lookup(was.moment.known, id).None?
    requires DecodeSource(a.datagram, MAX_SOURCE_RECORDS, l.bytes).Ok?
    requires DecodeSource(a.datagram, MAX_SOURCE_RECORDS, l.bytes).value.symbolId == id
    requires !report.refused
    ensures KnownHere([KnownSource(id, a.datagram, r)], ids, now.progress, l.bytes)
  {
    hide Answered, Onward, ItemsReached, LossExcused, Lookup, DecodeSource, AllReached, AllHere, RecordsOf;
    ReachedIsHere(RecordsOf(a.datagram, l.bytes), ids, was.progress, now.progress, a.now);
  }

  lemma StepHere<F>(a: Arrival, ids: map<F, nat>, was: Snapshot<F>, now: Snapshot<F>, r: Report, l: Limits)
    requires Served(a, ids, was, now, r, l) && !r.closed && Steady(was.moment)
    requires was.progress.dropped == now.progress.dropped && |now.moment.known| < l.symbols
    requires KnownHere(was.moment.known, ids, was.progress, l.bytes)
    ensures KnownHere(now.moment.known, ids, now.progress, l.bytes)
  {
    hide Accepts, Onward, ItemsReached, KnownHere, Lookup, DecodeSource, DecodeRepair, Steady, Handled, AllReached;
    hide RecordsOf, Entries, LossExcused;
    AnsweredIsTaken(a, was.moment, now.moment, r, l);
    HereStays(was.moment.known, ids, was.progress, now.progress, l.bytes, a.now);
    EntriesHere(r.items, ids, was.progress, now.progress, l.bytes, a.now);
    var e := EventOf(a.datagram, l.bytes, a.oldestUnique, {}).value;
    if e.SourceArrives? {
      if Lookup(was.moment.known, e.id).Some? {
        RepeatKnown(e, was.moment, now.moment, r.items, l);
      } else {
        var retained := SourceLearns(e, was.moment, now.moment, r.items, l);
        var source := KnownSource(e.id, e.source.bytes, retained);
        SourceHere(e.id, a, retained, ids, was, now, r, l);
        HereConcat(was.moment.known, [source], ids, now.progress, l.bytes);
        HereConcat(was.moment.known + [source], Entries(r.items), ids, now.progress, l.bytes);
      }
    } else {
      RepairLearns(e, was.moment, now.moment, r.items, l);
      HereConcat(was.moment.known, Entries(r.items), ids, now.progress, l.bytes);
    }
  }

  lemma RepeatKnown(e: Event, a: Moment, b: Moment, items: seq<Recovered>, l: Limits)
    requires Accepts(e, a, b, items, l) && e.SourceArrives? && Lookup(a.known, e.id).Some?
    ensures b.known == a.known
  {
    hide Lookup;
  }

  lemma SourceLearns(e: Event, a: Moment, b: Moment, items: seq<Recovered>, l: Limits) returns (r: nat)
    requires Accepts(e, a, b, items, l) && e.SourceArrives? && Lookup(a.known, e.id).None?
    requires Steady(a) && e.dropped == {} && |b.known| < l.symbols
    ensures b.known == a.known + [KnownSource(e.id, e.source.bytes, r)] + Entries(items)
  {
    hide Steady, Lookup, Learned, Harvested, SubstitutedAll, Entries;
    r :| b.known == Learned(a.known, e.id, e.source.bytes, r, items, {}, l.symbols);
    LearnedIs(a, e.id, e.source.bytes, r, items, b.rows, l);
  }

  lemma RepairLearns(e: Event, a: Moment, b: Moment, items: seq<Recovered>, l: Limits)
    requires Accepts(e, a, b, items, l) && e.RepairArrives?
    requires Steady(a) && e.dropped == {} && |b.known| < l.symbols
    ensures b.known == a.known + Entries(items)
  {
    hide Steady, RowOfRepair, Harvested, Committed, Entries;
    var row :| RowOfRepair(row, a.known, e.first, e.span, e.repairId, e.seed, e.coded)
               && Harvested(a.rows + [row], a.known, l.bytes, Outcome(items, b.rows));
    RepairIs(a, b, row, e.first, e.span, e.repairId, e.seed, e.coded, items, l);
  }

  lemma KnownGrows<F>(arrivals: seq<Arrival>, ids: map<F, nat>, snaps: seq<Snapshot<F>>, reports: seq<Report>,
                      l: Limits, i: nat)
    requires Undisturbed(arrivals, ids, snaps, reports, l) && i <= |arrivals|
    ensures |snaps[i].moment.known| < l.symbols
    decreases |arrivals| - i
  {
    hide Served, Steady, Accepts, EventOf;
    if i < |arrivals| {
      KnownGrows(arrivals, ids, snaps, reports, l, i + 1);
      StepTaken(arrivals, ids, snaps, reports, l, i);
      AcceptsGrows(EventOf(arrivals[i].datagram, l.bytes, arrivals[i].oldestUnique, {}).value, snaps[i].moment,
                   snaps[i + 1].moment, reports[i].items, l);
    }
  }

  lemma {:induction false} RunHere<F>(arrivals: seq<Arrival>, ids: map<F, nat>, snaps: seq<Snapshot<F>>,
                                      reports: seq<Report>, l: Limits, i: nat)
    requires Undisturbed(arrivals, ids, snaps, reports, l) && i <= |arrivals| && snaps[0].moment.known == []
    ensures KnownHere(snaps[i].moment.known, ids, snaps[i].progress, l.bytes)
  {
    hide Served, Steady;
    if i > 0 {
      RunHere(arrivals, ids, snaps, reports, l, i - 1);
      hide KnownHere;
      SameDrops(arrivals, ids, snaps, reports, l, i - 1);
      SameDrops(arrivals, ids, snaps, reports, l, i);
      KnownGrows(arrivals, ids, snaps, reports, l, i);
      assert Served(arrivals[i - 1], ids, snaps[i - 1], snaps[i], reports[i - 1], l) && Steady(snaps[i - 1].moment);
      StepHere(arrivals[i - 1], ids, snaps[i - 1], snaps[i], reports[i - 1], l);
    }
  }

  /**
   * What arrived, in any order and with any losses, determines a symbol if and only if the connection knows it in the
   * end, and then every record of that symbol is with the registered flow of its stream; only the records of streams
   * without one wait.
   */
  lemma DeterminedIsDelivered<F>(arrivals: seq<Arrival>, ids: map<F, nat>, snaps: seq<Snapshot<F>>,
                                 reports: seq<Report>, l: Limits, id: Id)
    requires Undisturbed(arrivals, ids, snaps, reports, l)
    requires snaps[0].moment.rows == [] && snaps[0].moment.known == []
    ensures WellFormed(arrivals, l.bytes)
    ensures var last, known := snaps[|arrivals|], Lookup(snaps[|arrivals|].moment.known, id);
      && (Forced(Events(arrivals, l.bytes), id) <==> known.Some?)
      && (known.Some? ==> AllHere(RecordsOf(known.value, l.bytes), ids, last.progress))
  {
    hide Lossless, Served, Steady, EventOf, Forced, Obtained, AllHere, RecordsOf, Lookup;
    RunIsLossless(arrivals, ids, snaps, reports, l);
    var events, moments, results, last := Events(arrivals, l.bytes), Moments(snaps), Found(reports), snaps[|arrivals|];
    LosslessShape(events, moments, results, l);
    Optimal(events, moments, results, l, id);
    RunKnown(events, moments, results, l, id);
    NoneKnown(id);
    RunHere(arrivals, ids, snaps, reports, l, |arrivals|);
    if Lookup(last.moment.known, id).Some? {
      var k := KnownAt(last.moment.known, id);
    }
  }

  lemma LosslessShape(events: seq<Event>, moments: seq<Moment>, results: seq<Result<seq<Recovered>, FecError>>,
                      l: Limits)
    requires Lossless(events, moments, results, l)
    ensures |results| == |events| && |moments| == |events| + 1
  {
    hide Answers, Steady;
  }

  lemma NoneKnown(id: Id)
    ensures Lookup([], id).None?
  {
  }
}
