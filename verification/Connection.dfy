/** The receiving side of a connection: one decoder, many flows, one memory budget (src/recovery.rs). */
module Connection {
  import opened Results
  import opened Galois
  import opened Varint
  import opened Rows
  import opened Elimination
  import opened Harvest
  import opened Reduction
  import opened Decoding
  import opened Substitution
  import opened Repair
  import opened RepairCodec
  import opened SourceCodec
  import opened AckRanges
  import opened Chunks
  import opened Budget
  import opened Charges
  import opened Storage
  import opened Decoder
  import opened DecoderRuns
  import Optimality
  import opened Receiving
  import opened Ownership
  import opened Inflow

  // In milliseconds.
  const PRE_OPEN_TTL: nat := 1_000

  // The size of a record in transit on a 64-bit target, and of a repair's header on the wire.
  const SIZE_PENDING: nat := 88
  const REPAIR_HEADER: nat := 17

  /** src/flow.rs, `insert_bytes_precharged`, as far as a connection is concerned. */
  method Insert(f: FlowReceiver, r: Record, charge: Charge) returns (error: Option<RecoveryError>)
    requires f.Sound() && f.receive.budget.Valid() && Owned(f.receive.budget.ledger, f.receive.chunks)
    requires f.receive.budget.Holds(charge) && charge.token !in Tokens(f.receive.chunks)
    modifies f, f.receive, f.receive.budget, f.received
    ensures f.Sound() && f.receive.budget.Valid() && Owned(f.receive.budget.ledger, f.receive.chunks)
    ensures Others(f.receive.budget.ledger, f.receive.chunks)
         == Others(old(f.receive.budget.ledger), old(f.receive.chunks)) - {charge.token}
    ensures Receives(old(f.View()), f.View(), r.offset, r.data, r.fin, error)
    ensures error.Some? && |r.data| <= charge.bytes ==>
      Cause(old(f.View()), old(f.Burden()), r.offset, r.data, r.fin, error.value)
    ensures Fills(old(f.Burden()), f.Burden())
  {
    hide FlowReceiver.Valid, FlowReceiver.Sound, Receives, Owned, Others, Tokens, MemoryBudget.Valid, Cause;
    f.ValidIs();
    ghost var gaps;
    error, gaps := f.InsertPrecharged(r.offset, r.data, r.fin, charge);
    f.ValidIs();
  }

  lemma Updated<K, V>(was: map<K, V>, now: map<K, V>, k: K)
    requires now.Keys == was.Keys && k in was && forall g :: g in was && g != k ==> now[g] == was[g]
    ensures now == was[k := now[k]]
  {
  }

  /** What the batches of the decoder have in common. */
  ghost predicate Paid(batch: Batch, rows: seq<Row>, max: nat) {
    batch.charge.bytes == batch.retained == BatchBytes(batch.items) && Ripe(batch.items, rows, max)
  }

  /** Recovered symbols of the right size, each of them once, that no equation mentions any more. */
  ghost predicate Ripe(items: seq<Recovered>, rows: seq<Row>, max: nat) {
    && Committable(items, rows, max)
    && forall i, j :: 0 <= i < j < |items| ==> items[i].symbolId != items[j].symbolId
  }

  function ItemBytes(items: seq<Recovered>): nat {
    if items == [] then 0 else ItemBytes(items[..|items| - 1]) + |items[|items| - 1].bytes|
  }

  lemma ItemsNext(items: seq<Recovered>, n: nat)
    requires n < |items|
    ensures ItemBytes(items[..n + 1]) == ItemBytes(items[..n]) + |items[n].bytes|
  {
    assert items[..n + 1][..n] == items[..n];
  }

  lemma {:induction false} ItemsAre(items: seq<Recovered>)
    requires forall k :: 0 <= k < |items| ==> |items[k].bytes| == items[k].retained
    ensures ItemBytes(items) == RecoveredBytes(items)
  {
    if items != [] {
      ItemsAre(items[..|items| - 1]);
    }
  }

  lemma ItemsPaid(batch: Batch, rows: seq<Row>, max: nat)
    requires Paid(batch, rows, max)
    ensures ItemBytes(batch.items) <= batch.retained == batch.charge.bytes && Ripe(batch.items, rows, max)
  {
    ItemsAre(batch.items);
  }

  /** The records of all these symbols have reached their flows or places, except for the lost ones. */
  ghost predicate ItemsReached<F>(items: seq<Recovered>, lost: set<Id>, max: nat, ids: map<F, nat>, was: Progress<F>,
                                  now: Progress<F>, clock: nat)
  {
    forall k :: 0 <= k < |items| ==>
      items[k].symbolId in lost || AllReached(RecordsOf(items[k].bytes, max), ids, was, now, clock)
  }

  lemma NoItems<F>(items: seq<Recovered>, lost: set<Id>, max: nat, ids: map<F, nat>, was: Progress<F>,
                   now: Progress<F>, clock: nat)
    requires items == []
    ensures ItemsReached(items, lost, max, ids, was, now, clock)
  {
  }

  lemma ItemReachedNext<F>(items: seq<Recovered>, n: nat, lost: set<Id>, gone: set<Id>, max: nat, ids: map<F, nat>,
                           a: Progress<F>, b: Progress<F>, c: Progress<F>, clock: nat)
    requires n < |items| && ItemsReached(items[n + 1..], lost, max, ids, a, b, clock)
    requires items[n].symbolId in gone || AllReached(RecordsOf(items[n].bytes, max), ids, b, c, clock)
    requires Onward(ids, a, b, clock) && Onward(ids, b, c, clock)
    ensures ItemsReached(items[n..], lost + gone, max, ids, a, c, clock) && Onward(ids, a, c, clock)
  {
    hide AllReached, Onward, RecordsOf;
    OnwardTwice(ids, a, b, c, clock);
    if items[n].symbolId !in gone {
      AllReachedFrom(RecordsOf(items[n].bytes, max), ids, a, b, c, clock);
    }
    forall k | 0 <= k < |items[n..]| && items[n..][k].symbolId !in lost + gone
      ensures AllReached(RecordsOf(items[n..][k].bytes, max), ids, a, c, clock)
    {
      if k > 0 {
        assert items[n..][k] == items[n + 1..][k - 1];
        AllReachedStays(RecordsOf(items[n..][k].bytes, max), ids, a, b, c, clock);
      }
    }
  }

  lemma ItemsReachedFrom<F>(items: seq<Recovered>, lost: set<Id>, max: nat, ids: map<F, nat>, a: Progress<F>,
                            b: Progress<F>, c: Progress<F>, clock: nat)
    requires Onward(ids, a, b, clock) && ItemsReached(items, lost, max, ids, b, c, clock)
    ensures ItemsReached(items, lost, max, ids, a, c, clock)
  {
    hide AllReached, Onward, RecordsOf;
    forall k | 0 <= k < |items| && items[k].symbolId !in lost
      ensures AllReached(RecordsOf(items[k].bytes, max), ids, a, c, clock)
    {
      AllReachedFrom(RecordsOf(items[k].bytes, max), ids, a, b, c, clock);
    }
  }

  /** How many records the symbols carry. */
  ghost function RecordCount(items: seq<Recovered>, max: nat): nat {
    if items == [] then 0
    else RecordCount(items[..|items| - 1], max) + |RecordsOf(items[|items| - 1].bytes, max)|
  }

  lemma RecordCountNext(items: seq<Recovered>, n: nat, max: nat)
    requires n < |items|
    ensures RecordCount(items[..n + 1], max) == RecordCount(items[..n], max) + |RecordsOf(items[n].bytes, max)|
  {
    assert items[..n + 1][..n] == items[..n];
  }

  /** What dispatching recovered symbols takes, beside what they occupy. */
  function DispatchBytes(items: seq<Recovered>): nat {
    ItemBytes(items) + MAX_SOURCE_RECORDS * SIZE_PENDING
  }

  /** Places for `direct` records and those of the symbols, and `extra` bytes beside those that the symbols take. */
  datatype Margin = Margin(direct: nat, places: int, extra: nat, used: nat)

  /**
   * Why a recovered symbol may be lost: it is malformed, or there were not places for all records, or not the memory
   * to dispatch the batch. The places are those that were free at first, the bytes those in use at last.
   */
  ghost predicate LossExcused(items: seq<Recovered>, lost: set<Id>, m: Margin, l: Limits) {
    forall k :: 0 <= k < |items| && items[k].symbolId in lost ==>
      || DecodeSource(items[k].bytes, MAX_SOURCE_RECORDS, l.bytes).Err?
      || m.places < m.direct + RecordCount(items, l.bytes)
      || m.used + m.extra + BatchBytes(items) + DispatchBytes(items) > l.memory
  }

  lemma ExcusedFrom(items: seq<Recovered>, lost: set<Id>, m: Margin, n: Margin, l: Limits)
    requires LossExcused(items, lost, m, l)
    requires n.places - n.direct <= m.places - m.direct && m.used + m.extra <= n.used + n.extra
    ensures LossExcused(items, lost, n, l)
  {
    hide DecodeSource, RecordCount, BatchBytes, DispatchBytes;
  }

  lemma NothingLost(items: seq<Recovered>, m: Margin, l: Limits)
    ensures LossExcused(items, {}, m, l)
  {
  }

  // The recovered symbols are new to the decoder.
  lemma AdoptsFresh(e: Event, a: Moment, b: Moment, items: seq<Recovered>, l: Limits)
    requires Steady(a) && Adopts(e, a, b, items, l)
    ensures Optimality.Fresh(b.known, items)
  {
    hide Lookup, Harvested, RowOfRepair, SubstitutedAll, Pending, UniqueIds, KnownIds, AllIds, Steady, Optimality.Fresh;
    match e
    case SourceArrives(id, source, _, _) =>
      if Lookup(a.known, id).None? {
        var r: nat :| b.known == Window(a.known, l.symbols) + [KnownSource(id, source.bytes, r)];
        Optimality.SubstitutedDisjoint(a, id, source.bytes);
        WindowIds(a.known, l.symbols, KnownSource(id, source.bytes, r));
        Optimality.HarvestAnywhere(SubstitutedAll(a.rows, id, source.bytes), a.known, b.known, l.bytes,
                                   Outcome(items, b.rows));
      } else {
        NothingFresh(b.known);
      }
    case RepairArrives(first, span, repairId, seed, coded, _) =>
      var row :| RowOfRepair(row, a.known, first, span, repairId, seed, coded)
                 && Harvested(a.rows + [row], a.known, l.bytes, Outcome(items, b.rows));
      Optimality.RepairDisjoint(a, row, first, span, repairId, seed, coded);
      Optimality.HarvestAnywhere(a.rows + [row], a.known, a.known, l.bytes, Outcome(items, b.rows));
  }

  lemma NothingFresh(known: seq<KnownSource>)
    ensures Optimality.Fresh(known, [])
  {
  }

  lemma WindowIds(known: seq<KnownSource>, max: nat, source: KnownSource)
    ensures KnownIds(Window(known, max) + [source]) <= KnownIds(known) + {source.symbolId}
  {
    Optimality.PushIds(Window(known, max), source);
    forall id | id in KnownIds(Window(known, max)) ensures id in KnownIds(known) {
    }
  }

  // A symbol that is unknown stays so when another is committed.
  lemma UnknownStays(known: seq<KnownSource>, item: Recovered, lost: set<Id>, max: nat, id: Id)
    requires Lookup(known, id).None? && item.symbolId != id
    ensures Lookup(CommittedOne(known, item, lost, max), id).None?
  {
    var source := KnownSource(item.symbolId, item.bytes, item.retained);
    WindowIds(known, max, source);
    Optimality.UnknownId(known, id);
    Optimality.UnknownId(Window(known, max) + [source], id);
  }

  /** A datagram as a sender of the symbols x makes them. */
  ghost predicate GenuineDatagram(x: Assignment, max: nat, datagram: Bytes) {
    && (match DecodeSource(datagram, MAX_SOURCE_RECORDS, max)
        case Ok(source) => source.symbolId in x && x[source.symbolId] == datagram
        case Err(_) => true)
    && (match DecodeRepair(datagram, max)
        case Ok(r) => ValidRepair(r) && GenuineRepair(x, r.firstSymbolId, r.span, r.repairId, r.seed, r.coded)
        case Err(_) => true)
  }

  ghost predicate GenuineAs(x: Assignment, r: RepairDatagram)
    requires ValidRepair(r)
  {
    GenuineRepair(x, r.firstSymbolId, r.span, r.repairId, r.seed, r.coded)
  }

  lemma DecodedId(bytes: Bytes, max: nat)
    requires DecodeSource(bytes, MAX_SOURCE_RECORDS, max).Ok?
    ensures ValidSource(DecodeSource(bytes, MAX_SOURCE_RECORDS, max).value)
  {
    SourceCanonical(bytes, MAX_SOURCE_RECORDS, max);
  }

  /** A source datagram as an arrival at the decoder; `lost` are the recovered symbols that dispatch drops. */
  function SourceEvent(id: Id, source: Bytes, oldestUnique: bool, lost: set<Id>): Event {
    SourceArrives(id, Buffer(source, |source|, false), oldestUnique, lost)
  }

  function RepairEvent(r: RepairDatagram, lost: set<Id>): Event
    requires ValidRepair(r)
  {
    RepairArrives(r.firstSymbolId, r.span, r.repairId, r.seed, r.coded, lost)
  }

  lemma AdoptsRipe(e: Event, a: Moment, b: Moment, items: seq<Recovered>, l: Limits)
    requires Adopts(e, a, b, items, l)
    ensures Ripe(items, b.rows, l.bytes)
  {
    hide Adopts, Committable;
    AdoptsCommittable(e, a, b, items, l);
  }

  /** What a datagram is to the decoder; None if it is malformed. */
  ghost function EventOf(datagram: Bytes, max: nat, oldestUnique: bool, lost: set<Id>): Option<Event> {
    match DecodeSource(datagram, MAX_SOURCE_RECORDS, max)
    case Ok(source) =>
      if source.symbolId < U32 then Some(SourceEvent(source.symbolId, datagram, oldestUnique, lost)) else None
    case Err(_) =>
      match DecodeRepair(datagram, max)
      case Ok(r) => if ValidRepair(r) then Some(RepairEvent(r, lost)) else None
      case Err(_) => None
  }

  /** The decoder did not notice. */
  ghost predicate Ignored(was: Moment, now: Moment, items: seq<Recovered>) {
    items == [] && now.rows == was.rows && now.known == was.known
  }

  /** The decoder took the arrival and committed all that it recovered, or the arrival was refused and counted. */
  ghost predicate Handled(e: Event, was: Moment, now: Moment, items: seq<Recovered>, refused: bool, counted: bool,
                          l: Limits)
  {
    && (if refused then counted && Ignored(was, now, items) else Accepts(e, was, now, items, l))
    && (e.dropped != {} ==> counted)
  }

  /**
   * What a datagram led to: the symbols it recovered, those of them that dispatch dropped, whether it was fatal, and
   * whether it was refused as a whole.
   */
  datatype Report = Report(items: seq<Recovered>, lost: set<Id>, closed: bool, refused: bool)

  /** A datagram is handled, or it was malformed and a drop was counted, or it found the decoder full. */
  ghost predicate Answered(a: Arrival, was: Moment, now: Moment, r: Report, counted: bool, l: Limits) {
    match EventOf(a.datagram, l.bytes, a.oldestUnique, r.lost)
    case Some(e) =>
      if r.closed then e.RepairArrives? && |was.rows| == l.rows && Ignored(was, now, r.items)
      else Handled(e, was, now, r.items, r.refused, counted, l)
    case None => counted && !r.closed && r.refused && Ignored(was, now, r.items)
  }

  ghost predicate SourceAnswered(datagram: Bytes, oldestUnique: bool, was: Moment, now: Moment, r: Report,
                                 counted: bool, l: Limits)
  {
    && !r.closed
    && match DecodeSource(datagram, MAX_SOURCE_RECORDS, l.bytes)
       case Ok(source) =>
         source.symbolId < U32 && Handled(SourceEvent(source.symbolId, datagram, oldestUnique, r.lost), was, now,
                                          r.items, r.refused, counted, l)
       case Err(_) => counted && r.refused && Ignored(was, now, r.items)
  }

  ghost predicate RepairAnswered(datagram: Bytes, was: Moment, now: Moment, r: Report, counted: bool, l: Limits) {
    match DecodeRepair(datagram, l.bytes)
    case Ok(repair) =>
      && ValidRepair(repair)
      && if r.closed then |was.rows| == l.rows && Ignored(was, now, r.items)
         else Handled(RepairEvent(repair, r.lost), was, now, r.items, r.refused, counted, l)
    case Err(_) => counted && !r.closed && r.refused && Ignored(was, now, r.items)
  }

  /** A repair that the decoder has the room and the work for. */
  ghost predicate Affordable(r: RepairDatagram, was: Moment, l: Limits) {
    && |was.rows| < l.rows
    && RepairBound(|was.rows|, CoefficientCount(was.rows) + r.span, r.span, l.bytes) <= l.work
    && was.used + RepairReserve(was.rows, r.span, l.bytes) <= l.memory
  }

  /** A new source that the decoder has the work and the memory for, beside `extra` bytes. */
  ghost predicate SourceRoom(size: nat, was: Moment, extra: nat, l: Limits) {
    && SourceBound(|was.rows|, CoefficientCount(was.rows), l.bytes) <= l.work
    && was.used + extra + SourceReserve(was.rows, size, l.bytes) <= l.memory
  }

  /** What a source datagram occupies on its way to the decoder. */
  function TransitBytes(records: nat, size: nat, max: nat): nat {
    if records == 1 then max + REPAIR_HEADER else records * SIZE_PENDING + size
  }

  lemma RoomIs(size: nat, was: Moment, extra: nat, l: Limits)
    requires SourceRoom(size, was, extra, l)
    ensures was.used + extra <= l.memory
  {
    hide SourceBound, SourceReserve;
  }

  /** A source datagram for which there are places, memory and work. */
  ghost predicate SourceAffordable(source: Source, size: nat, was: Moment, places: int, l: Limits) {
    |source.records| <= places && SourceRoom(size, was, TransitBytes(|source.records|, size, l.bytes), l)
  }

  // Less in use leaves the room.
  lemma RoomStays(size: nat, was: Moment, extra: nat, now: Moment, extra': nat, l: Limits)
    requires SourceRoom(size, was, extra, l) && now.rows == was.rows && now.used + extra' <= was.used + extra
    ensures SourceRoom(size, now, extra', l)
  {
  }

  lemma RoomSuffices(id: Id, source: Bytes, oldestUnique: bool, was: Moment, error: FecError, l: Limits)
    requires SourceRoom(|source|, was, 0, l) && MayRefuse(SourceEvent(id, source, oldestUnique, {}), was, error, l)
    ensures error != WorkBudget && error != MemoryCapacity
  {
  }

  lemma AcceptedIsHandled(e: Event, a: Moment, m: Moment, b: Moment, items: seq<Recovered>, counted: bool, l: Limits)
    requires Adopts(e, a, m, items, l) && (e.dropped != {} ==> counted)
    requires b.rows == m.rows && b.known == Committed(m.known, items, e.dropped, l.symbols)
    ensures Handled(e, a, b, items, false, counted, l)
  {
    hide Adopts, Accepts, Committed;
    AdoptsCommits(e, a, m, b, items, l);
  }

  // What dispatch drops does not matter to the decoder.
  lemma AdoptsAnyway(e: Event, a: Moment, b: Moment, items: seq<Recovered>, l: Limits, lost: set<Id>)
    requires Adopts(e, a, b, items, l)
    ensures Adopts(e.(dropped := lost), a, b, items, l)
  {
    hide Lookup, Window, Harvested, RowOfRepair, SubstitutedAll;
  }

  lemma RepeatIsHandled(id: Id, source: Bytes, oldestUnique: bool, a: Moment, b: Moment, counted: bool, l: Limits)
    requires Lookup(a.known, id) == Some(source) && b.rows == a.rows && b.known == a.known
    ensures Handled(SourceEvent(id, source, oldestUnique, {}), a, b, [], false, counted, l)
  {
    hide Lookup;
  }

  lemma IgnoredIsHandled(e: Event, a: Moment, b: Moment, l: Limits)
    requires b.rows == a.rows && b.known == a.known
    ensures Handled(e, a, b, [], true, true, l)
  {
    hide Accepts;
  }

  // What else is reserved in the meantime does not matter.
  lemma HandledFrom(e: Event, a: Moment, m: Moment, n: Moment, b: Moment, items: seq<Recovered>, refused: bool,
                    counted: bool, more: bool, l: Limits)
    requires Handled(e, m, n, items, refused, counted, l) && (counted ==> more)
    requires m.rows == a.rows && m.known == a.known && n.rows == b.rows && n.known == b.known
    ensures Handled(e, a, b, items, refused, more, l)
  {
    hide Lookup, Window, Harvested, RowOfRepair, SubstitutedAll, Learned;
  }

  // The first byte tells a source from a repair.
  lemma Kinds(datagram: Bytes, max: nat)
    ensures datagram == [] || datagram[0] != SOURCE_DATAGRAM ==> DecodeSource(datagram, MAX_SOURCE_RECORDS, max).Err?
    ensures datagram == [] || datagram[0] != REPAIR_DATAGRAM ==> DecodeRepair(datagram, max).Err?
  {
  }

  /** A datagram with what the connection finds at that moment. */
  datatype Arrival = Arrival(datagram: Bytes, now: nat, oldestUnique: bool, maxSpan: nat)

  /** The datagram repeats a source that is known already. */
  ghost predicate RepeatsIn(known: seq<KnownSource>, datagram: Bytes, max: nat) {
    match DecodeSource(datagram, MAX_SOURCE_RECORDS, max)
    case Ok(source) => source.symbolId < U32 && Lookup(known, source.symbolId) == Some(datagram)
    case Err(_) => false
  }

  /** The decoder, the flows, and the free places for records without a flow. */
  datatype Snapshot<!F> = Snapshot(moment: Moment, progress: Progress<F>, places: int)

  /** There are places, memory and work for a source, or rows, memory and work for a repair of admitted span. */
  ghost predicate Affords<F>(a: Arrival, was: Snapshot<F>, l: Limits) {
    match DecodeSource(a.datagram, MAX_SOURCE_RECORDS, l.bytes)
    case Ok(source) => SourceAffordable(source, |a.datagram|, was.moment, was.places, l)
    case Err(_) =>
      match DecodeRepair(a.datagram, l.bytes)
      case Ok(r) => r.span <= a.maxSpan && Affordable(r, was.moment, l)
      case Err(_) => false
  }

  /** The decoder took the datagram. */
  ghost predicate Taken(a: Arrival, was: Moment, now: Moment, r: Report, l: Limits) {
    match EventOf(a.datagram, l.bytes, a.oldestUnique, r.lost)
    case Some(e) => Accepts(e, was, now, r.items, l)
    case None => false
  }

  ghost function MarginOf<F>(a: Arrival, was: Snapshot<F>, now: Snapshot<F>, l: Limits): Margin {
    var n := |RecordsOf(a.datagram, l.bytes)|;
    Margin(n, was.places, TransitBytes(n, |a.datagram|, l.bytes), now.moment.used)
  }

  /** What one arrival did to the decoder and to the flows. */
  ghost predicate Served<F>(a: Arrival, ids: map<F, nat>, was: Snapshot<F>, now: Snapshot<F>, r: Report, l: Limits) {
    && Answered(a, was.moment, now.moment, r, was.progress.dropped < now.progress.dropped, l)
    && Onward(ids, was.progress, now.progress, a.now)
    && ItemsReached(r.items, r.lost, l.bytes, ids, was.progress, now.progress, a.now)
    && LossExcused(r.items, r.lost, MarginOf(a, was, now, l), l)
    && (|| r.refused || RepeatsIn(was.moment.known, a.datagram, l.bytes)
        || AllReached(RecordsOf(a.datagram, l.bytes), ids, was.progress, now.progress, a.now))
  }

  lemma RepairIgnored(datagram: Bytes, was: Moment, now: Moment, l: Limits)
    requires now.rows == was.rows && now.known == was.known
    requires DecodeRepair(datagram, l.bytes).Ok? ==> ValidRepair(DecodeRepair(datagram, l.bytes).value)
    ensures RepairAnswered(datagram, was, now, Report([], {}, false, true), true, l)
  {
    hide DecodeRepair, Handled;
    var repair := DecodeRepair(datagram, l.bytes);
    if repair.Ok? { IgnoredIsHandled(RepairEvent(repair.value, {}), was, now, l); }
  }

  lemma RepairIsAnswered(datagram: Bytes, was: Moment, now: Moment, r: Report, counted: bool, l: Limits)
    requires var repair := DecodeRepair(datagram, l.bytes);
      && repair.Ok? && ValidRepair(repair.value)
      && if r.closed then |was.rows| == l.rows && Ignored(was, now, r.items)
         else Handled(RepairEvent(repair.value, r.lost), was, now, r.items, r.refused, counted, l)
    ensures RepairAnswered(datagram, was, now, r, counted, l)
  {
    hide DecodeRepair, Handled;
  }

  lemma SourceServed<F>(a: Arrival, ids: map<F, nat>, was: Snapshot<F>, now: Snapshot<F>, r: Report, l: Limits)
    requires a.datagram != [] && a.datagram[0] == SOURCE_DATAGRAM
    requires SourceAnswered(a.datagram, a.oldestUnique, was.moment, now.moment, r,
                            was.progress.dropped < now.progress.dropped, l)
    requires Onward(ids, was.progress, now.progress, a.now)
    requires ItemsReached(r.items, r.lost, l.bytes, ids, was.progress, now.progress, a.now)
    requires LossExcused(r.items, r.lost, MarginOf(a, was, now, l), l)
    requires || r.refused || RepeatsIn(was.moment.known, a.datagram, l.bytes)
             || AllReached(RecordsOf(a.datagram, l.bytes), ids, was.progress, now.progress, a.now)
    ensures Served(a, ids, was, now, r, l)
  {
    Kinds(a.datagram, l.bytes);
    hide DecodeSource, DecodeRepair, Onward, ItemsReached, LossExcused, AllReached, RecordsOf, RepeatsIn, Handled;
  }

  lemma UnknownServed<F>(a: Arrival, ids: map<F, nat>, was: Snapshot<F>, now: Snapshot<F>, r: Report, l: Limits)
    requires a.datagram == [] || a.datagram[0] !in {SOURCE_DATAGRAM, REPAIR_DATAGRAM}
    requires r == Report([], {}, false, true) && was.progress.dropped < now.progress.dropped
    requires Ignored(was.moment, now.moment, []) && Onward(ids, was.progress, now.progress, a.now)
    ensures Served(a, ids, was, now, r, l)
  {
    Kinds(a.datagram, l.bytes);
    hide DecodeSource, DecodeRepair, Onward, AllReached, RecordsOf, RepeatsIn, Handled;
    NothingLost(r.items, MarginOf(a, was, now, l), l);
  }

  lemma RepairServed<F>(a: Arrival, ids: map<F, nat>, was: Snapshot<F>, now: Snapshot<F>, r: Report, l: Limits)
    requires a.datagram != [] && a.datagram[0] == REPAIR_DATAGRAM
    requires RepairAnswered(a.datagram, was.moment, now.moment, r, was.progress.dropped < now.progress.dropped, l)
    requires Onward(ids, was.progress, now.progress, a.now)
    requires ItemsReached(r.items, r.lost, l.bytes, ids, was.progress, now.progress, a.now)
    requires LossExcused(r.items, r.lost, Margin(0, was.places, 0, now.moment.used), l)
    ensures Served(a, ids, was, now, r, l)
  {
    Kinds(a.datagram, l.bytes);
    assert RecordsOf(a.datagram, l.bytes) == [];
    hide DecodeSource, DecodeRepair, Onward, ItemsReached, LossExcused, RecordsOf, RepeatsIn, Handled, Reached;
    ExcusedFrom(r.items, r.lost, Margin(0, was.places, 0, now.moment.used), MarginOf(a, was, now, l), l);
  }

  lemma ServedTaken<F>(a: Arrival, ids: map<F, nat>, was: Snapshot<F>, now: Snapshot<F>, r: Report, l: Limits)
    requires Served(a, ids, was, now, r, l)
    ensures !r.refused && !r.closed ==> Taken(a, was.moment, now.moment, r, l)
  {
    hide EventOf, Accepts, Onward, ItemsReached, LossExcused, AllReached, RecordsOf, RepeatsIn;
  }

  /** The time of the latest arrival. */
  function Latest(arrivals: seq<Arrival>): (t: nat)
    ensures forall i :: 0 <= i < |arrivals| ==> arrivals[i].now <= t
  {
    if arrivals == [] then 0
    else
      var n := |arrivals| - 1;
      var t := Latest(arrivals[..n]);
      assert forall i :: 0 <= i < n ==> arrivals[..n][i] == arrivals[i];
      if t < arrivals[n].now then arrivals[n].now else t
  }

  ghost predicate AllGenuineDatagrams(x: Assignment, max: nat, arrivals: seq<Arrival>) {
    forall i :: 0 <= i < |arrivals| ==> GenuineDatagram(x, max, arrivals[i].datagram)
  }

  class ConnectionRecovery {
    const budget: MemoryBudget
    const decoder: Decoder
    const preOpenLimit: nat
    const workBudget: nat
    var flows: map<nat, FlowReceiver>
    var preOpen: seq<PreOpenRecord>
    var preOpenCount: nat
    var dropped: nat

    // The flows that are alive, registered or not, and the stream that each one is.
    ghost var ids: map<FlowReceiver, nat>

    ghost function Objects(): set<object>
      reads this`ids
    {
      var own: set<object> := ids.Keys;
      own + (set f | f in ids :: f.receive) + (set f | f in ids :: f.received)
    }

    ghost function Stores(): map<FlowReceiver, seq<BufferedChunk>>
      reads this`ids, Objects()
    {
      map f | f in ids :: f.receive.chunks
    }

    ghost function Views(): map<FlowReceiver, Inbox>
      reads this`ids, Objects()
    {
      map f | f in ids :: f.View()
    }

    ghost function Loads(): map<FlowReceiver, Load>
      reads this`ids, Objects()
    {
      map f | f in ids :: f.Burden()
    }

    ghost function State(): Progress<FlowReceiver>
      reads this`ids, this`flows, this`preOpen, this`dropped, Objects()
    {
      Progress(Views(), Loads(), preOpen, dropped, flows)
    }

    ghost predicate Apart()
      reads this`ids, this`flows
    {
      && decoder.budget == budget
      && (forall f :: f in ids ==> f.receive.budget == budget)
      && (forall f, g :: f in ids && g in ids && f != g ==> f.receive != g.receive && f.received != g.received)
      && (forall id :: id in flows ==> flows[id] in ids && ids[flows[id]] == id)
    }

    /** Every flow is sound and every reserved byte of the connection has one holder:
        the decoder, a chunk of a flow, a pre-open record, or one of the charges in `hand`. */
    ghost predicate Owns(hand: multiset<Charge>)
      reads this`ids, this`flows, this`preOpen, Objects(), budget, decoder
    {
      && Apart()
      && decoder.Valid() && decoder.Settled()
      && (forall f :: f in ids ==> f.Sound())
      && Parted(budget.ledger, decoder, Stores(), Waiting(preOpen) + hand)
      && (forall k :: 0 <= k < |preOpen| ==> |preOpen[k].record.data| <= preOpen[k].charge.bytes)
    }

    /** The pre-open records, and the places promised to records in transit, are counted and bounded. */
    ghost predicate Counted(promised: nat)
      reads this`preOpen, this`preOpenCount
    {
      preOpenCount == |preOpen| + promised <= preOpenLimit
    }

    /** No record waits whose stream is registered. */
    ghost predicate Unclaimed()
      reads this`preOpen, this`flows
    {
      Strangers(preOpen, flows)
    }

    ghost predicate Valid(hand: multiset<Charge>, promised: nat)
      reads this, Objects(), budget, decoder
    {
      Owns(hand) && Counted(promised) && Unclaimed()
    }

    /** What others have reserved from the same budget. */
    ghost function Elsewhere(hand: multiset<Charge>): map<object, nat>
      reads this`ids, this`preOpen, Objects(), budget
    {
      Foreign(budget.ledger, decoder, Stores(), Waiting(preOpen) + hand)
    }

    /** Everything the connection knows or keeps was sent by a sender of the symbols x. */
    ghost predicate Truthful(x: Assignment)
      reads this`preOpen, decoder
    {
      decoder.Explained(x) && forall k :: 0 <= k < |preOpen| ==> SentIn(x, decoder.maxBytes, preOpen[k].record)
    }

    lemma DecoderIs()
      requires decoder.budget == budget
      ensures decoder.Valid() <==>
        decoder.Shape() && budget.Valid() && decoder in budget.ledger && budget.ledger[decoder] == decoder.Owned()
    {
    }

    lemma OwnsSteady(hand: multiset<Charge>)
      requires Owns(hand)
      ensures Steady(Now(decoder))
    {
      hide Pending, AllIds, KnownIds, UniqueIds;
    }

    lemma OwnsBudget(hand: multiset<Charge>)
      requires Owns(hand)
      ensures decoder.budget == budget
    {
    }

    lemma OwnsWithin(hand: multiset<Charge>)
      requires Owns(hand)
      ensures budget.used <= budget.limit
    {
    }

    lemma OwnsApart(hand: multiset<Charge>)
      requires Owns(hand)
      ensures Apart()
    {
    }

    lemma InObjects(f: FlowReceiver)
      requires f in ids
      ensures f in Objects() && f.receive in Objects() && f.received in Objects()
    {
    }

    lemma StoresAre()
      ensures Stores().Keys == Views().Keys == Loads().Keys == ids.Keys
      ensures forall f :: f in ids ==>
        Stores()[f] == f.receive.chunks && Views()[f] == f.View() && Loads()[f] == f.Burden()
    {
    }

    constructor (window: nat, maxBytes: nat, preOpenLimit: nat, workBudget: nat, budget: MemoryBudget)
      requires 1 <= window && budget.Valid()
      modifies budget
      ensures Valid(multiset{}, 0) && this.budget == budget && Elsewhere(multiset{}) == old(budget.ledger)
      ensures flows == map[] && ids == map[] && preOpen == [] && preOpenCount == 0 && dropped == 0
      ensures Bounds() == Limits(window, window, maxBytes, budget.limit, workBudget)
      ensures this.preOpenLimit == preOpenLimit
      ensures decoder.rows == [] && decoder.known == []
      ensures forall x :: Genuine(x, maxBytes) ==> Truthful(x)
    {
      this.budget, this.preOpenLimit, this.workBudget := budget, preOpenLimit, workBudget;
      decoder := new Decoder(window, window, maxBytes, budget);
      flows, preOpen, preOpenCount, dropped, ids := map[], [], 0, 0, map[];
      new;
      assert Stores() == map[];
      assert Waiting(preOpen) + multiset{} == multiset{};
      assert old(budget.ledger)[decoder := 0] - {decoder} == old(budget.ledger);
    }

    /** One flow takes a record; the others do not notice. */
    method HandOver(f: FlowReceiver, r: Record, charge: Charge) returns (error: Option<RecoveryError>)
      requires Apart() && (forall g :: g in ids ==> g.Sound()) && f in ids
      requires budget.Valid() && Owned(budget.ledger, f.receive.chunks)
      requires budget.Holds(charge) && charge.token !in Tokens(f.receive.chunks)
      modifies budget, f, f.receive, f.received
      ensures budget.Valid() && Owned(budget.ledger, f.receive.chunks) && forall g :: g in ids ==> g.Sound()
      ensures Others(budget.ledger, f.receive.chunks)
           == Others(old(budget.ledger), old(f.receive.chunks)) - {charge.token}
      ensures Receives(old(f.View()), f.View(), r.offset, r.data, r.fin, error)
      ensures error.Some? && |r.data| <= charge.bytes ==>
        Cause(old(f.View()), old(f.Burden()), r.offset, r.data, r.fin, error.value)
      ensures Fills(old(f.Burden()), f.Burden()) && Loads() == old(Loads())[f := f.Burden()]
      ensures Stores() == old(Stores())[f := f.receive.chunks] && Views() == old(Views())[f := f.View()]
    {
      hide FlowReceiver.Sound, FlowReceiver.View, FlowReceiver.Burden, Cause, Fills, Receives, Owned, Others, Tokens;
      hide MemoryBudget.Valid, Stores, Views, Loads;
      StoresAre();
      ghost var stores, views, loads := Stores(), Views(), Loads();
      error := Insert(f, r, charge);
      StoresAre();
      forall g | g in ids && g != f
        ensures g.Sound() && g.View() == old(g.View()) && g.receive.chunks == old(g.receive.chunks)
        ensures g.Burden() == old(g.Burden())
      {
      }
      Updated(stores, Stores(), f);
      Updated(views, Views(), f);
      Updated(loads, Loads(), f);
    }

    /** A record reaches its flow, with the charge that pays for it. */
    method Deliver(f: FlowReceiver, r: Record, charge: Charge, ghost hand: multiset<Charge>)
      returns (error: Option<RecoveryError>)
      requires Owns(hand) && f in ids && charge in hand
      modifies budget, f, f.receive, f.received
      ensures Owns(hand - multiset{charge}) && Elsewhere(hand - multiset{charge}) == old(Elsewhere(hand))
      ensures Receives(old(f.View()), f.View(), r.offset, r.data, r.fin, error)
      ensures Views() == old(Views())[f := f.View()] && Loads() == old(Loads())[f := f.Burden()]
      ensures error.Some? && |r.data| <= charge.bytes ==>
        Cause(old(f.View()), old(f.Burden()), r.offset, r.data, r.fin, error.value)
      ensures Fills(old(f.Burden()), f.Burden())
    {
      hide FlowReceiver.Sound, FlowReceiver.View, FlowReceiver.Burden, Cause, Fills, Receives, Decoder.Valid;
      hide Decoder.Settled, Stores, Views, Loads, Parted, Foreign, Waiting, Owned, Others, Tokens, StoreTokens;
      hide TokensOf, Held;
      ghost var ledger, stores, charges := budget.ledger, Stores(), Waiting(preOpen) + hand;
      StoresAre();
      PartedIs(ledger, decoder, stores, charges, f, charge);
      DecoderIs();
      error := HandOver(f, r, charge);
      StoresAre();
      Consigned(ledger, budget.ledger, decoder, stores, charges, f, f.receive.chunks, charge);
      DecoderIs();
      assert Waiting(preOpen) + (hand - multiset{charge}) == charges - multiset{charge};
    }

    // ----- charges

    /** A new charge, if the budget has room for it. */
    method Draw(bytes: nat, ghost hand: multiset<Charge>) returns (res: Option<Charge>)
      requires Owns(hand)
      modifies budget
      ensures res.Some? <==> old(budget.used) + bytes <= budget.limit
      ensures res.None? ==> Owns(hand) && Elsewhere(hand) == old(Elsewhere(hand)) && budget.used == old(budget.used)
      ensures res.Some? ==> res.value.bytes == bytes && Owns(hand + multiset{res.value})
      ensures res.Some? ==> budget.used == old(budget.used) + bytes
      ensures res.Some? ==> Elsewhere(hand + multiset{res.value}) == old(Elsewhere(hand))
      ensures Views() == old(Views()) && Loads() == old(Loads())
    {
      hide FlowReceiver.Sound, FlowReceiver.View, FlowReceiver.Burden, Decoder.Valid, Decoder.Settled, Parted;
      hide Foreign, Waiting, MemoryBudget.Valid;
      DecoderIs();
      res := budget.Reserve(bytes);
      DecoderIs();
      assert Stores() == old(Stores());
      if res.Some? {
        assert res.value.token !in old(budget.ledger);
        Reserved(old(budget.ledger), decoder, Stores(), Waiting(preOpen) + hand, res.value);
        Reassociate(Waiting(preOpen), hand, multiset{res.value});
      }
    }

    /** A charge goes back to the budget. */
    method Discard(charge: Charge, ghost hand: multiset<Charge>)
      requires Owns(hand) && charge in hand
      modifies budget
      ensures Owns(hand - multiset{charge}) && Elsewhere(hand - multiset{charge}) == old(Elsewhere(hand))
      ensures Views() == old(Views()) && Loads() == old(Loads()) && budget.used == old(budget.used) - charge.bytes
    {
      hide FlowReceiver.Sound, FlowReceiver.View, FlowReceiver.Burden, Decoder.Valid, Decoder.Settled, Parted;
      hide Foreign, Waiting, MemoryBudget.Valid;
      HeldIs(hand, charge);
      DecoderIs();
      budget.Drop(charge);
      DecoderIs();
      assert Stores() == old(Stores());
      Returned(old(budget.ledger), decoder, Stores(), Waiting(preOpen) + hand, charge);
      assert Waiting(preOpen) + (hand - multiset{charge}) == Waiting(preOpen) + hand - multiset{charge};
    }

    /** A part of a charge; the caller knows that there is enough. */
    method Divide(charge: Charge, bytes: nat, ghost hand: multiset<Charge>) returns (part: Charge, rest: Charge)
      requires Owns(hand) && charge in hand && bytes <= charge.bytes
      modifies budget
      ensures part.bytes == bytes && rest.bytes == charge.bytes - bytes
      ensures var hand' := hand - multiset{charge} + multiset{rest} + multiset{part};
        Owns(hand') && Elsewhere(hand') == old(Elsewhere(hand))
      ensures Views() == old(Views()) && Loads() == old(Loads()) && budget.used == old(budget.used)
    {
      hide FlowReceiver.Sound, FlowReceiver.View, FlowReceiver.Burden, Decoder.Valid, Decoder.Settled, Parted;
      hide Foreign, Waiting, MemoryBudget.Valid;
      HeldIs(hand, charge);
      DecoderIs();
      var split;
      split, rest := budget.Split(charge, bytes);
      part := split.value;
      DecoderIs();
      assert Stores() == old(Stores());
      ghost var ledger, charges := old(budget.ledger), Waiting(preOpen) + hand;
      assert part.token !in ledger;
      Resized(ledger, decoder, Stores(), charges, charge, rest.bytes);
      Reserved(ledger[charge.token := rest.bytes], decoder, Stores(), charges - multiset{charge} + multiset{rest},
               part);
      Exchanged(Waiting(preOpen), hand, charge, rest);
      Reassociate(Waiting(preOpen), hand - multiset{charge} + multiset{rest}, multiset{part});
    }

    lemma Exchanged(waiting: multiset<Charge>, hand: multiset<Charge>, charge: Charge, other: Charge)
      requires charge in hand
      ensures waiting + hand - multiset{charge} + multiset{other} ==
          waiting + (hand - multiset{charge} + multiset{other})
    {
      assert waiting + hand - multiset{charge} == waiting + (hand - multiset{charge});
    }

    /** A larger charge, if the budget has room for it. */
    method Enlarge(charge: Charge, bytes: nat, ghost hand: multiset<Charge>) returns (ok: bool, r: Charge)
      requires Owns(hand) && charge in hand
      modifies budget
      ensures ok ==> bytes <= r.bytes
      ensures !ok ==> r == charge && budget.used == old(budget.used)
      ensures !ok ==> old(budget.used) + bytes - charge.bytes > budget.limit
      ensures var hand' := hand - multiset{charge} + multiset{r};
        Owns(hand') && Elsewhere(hand') == old(Elsewhere(hand))
      ensures Views() == old(Views()) && Loads() == old(Loads())
    {
      hide FlowReceiver.Sound, FlowReceiver.View, FlowReceiver.Burden, Decoder.Valid, Decoder.Settled, Parted;
      hide Foreign, Waiting, MemoryBudget.Valid;
      HeldIs(hand, charge);
      DecoderIs();
      ok, r := budget.Grow(charge, bytes);
      DecoderIs();
      assert Stores() == old(Stores());
      Resized(old(budget.ledger), decoder, Stores(), Waiting(preOpen) + hand, charge, r.bytes);
      Exchanged(Waiting(preOpen), hand, charge, r);
    }

    /** A record without a flow is kept with its charge. */
    method Keep(r: PreOpenRecord, ghost hand: multiset<Charge>)
      requires Owns(hand) && r.charge in hand && |r.record.data| <= r.charge.bytes
      modifies this`preOpen
      ensures Owns(hand - multiset{r.charge}) && Elsewhere(hand - multiset{r.charge}) == old(Elsewhere(hand))
      ensures preOpen == old(preOpen) + [r] && Views() == old(Views()) && Loads() == old(Loads())
      ensures forall x :: old(Truthful(x)) && SentIn(x, decoder.maxBytes, r.record) ==> Truthful(x)
    {
      hide FlowReceiver.Sound, FlowReceiver.View, FlowReceiver.Burden, Decoder.Valid, Decoder.Settled, Parted;
      hide Foreign, Waiting, SentIn, Decoder.Explained;
      WaitingConcat(preOpen, [r]);
      WaitingOne(r);
      assert Waiting(preOpen) + multiset{r.charge} + (hand - multiset{r.charge}) == Waiting(preOpen) + hand;
      preOpen := preOpen + [r];
      assert Stores() == old(Stores());
    }

    /** src/recovery.rs, `drop_datagram`: whatever goes no further is counted. */
    method DropDatagram(count: nat, ghost hand: multiset<Charge>)
      requires Owns(hand)
      modifies this`dropped
      ensures dropped == old(dropped) + count && Owns(hand) && Elsewhere(hand) == old(Elsewhere(hand))
      ensures Views() == old(Views()) && Loads() == old(Loads())
    {
      hide FlowReceiver.Sound, FlowReceiver.View, FlowReceiver.Burden, Decoder.Valid, Decoder.Settled, Parted;
      hide Foreign, Waiting;
      dropped := dropped + count;
      assert Stores() == old(Stores());
    }

    lemma HeldIs(hand: multiset<Charge>, charge: Charge)
      requires Owns(hand) && charge in hand
      ensures budget.Holds(charge)
    {
      hide FlowReceiver.Sound, Decoder.Valid, Decoder.Settled, Waiting, Owned, Tokens;
      assert charge in Waiting(preOpen) + hand;
    }

    // ----- decoding

    /** After the decoder changed, with a new batch and its charge. */
    lemma Batched(ledger: map<object, nat>, hand: multiset<Charge>, charge: Charge)
      requires Parted(ledger, decoder, Stores(), Waiting(preOpen) + hand) && charge.token !in ledger
      requires budget.ledger == ledger[decoder := decoder.Owned()][charge.token := charge.bytes]
      requires Apart() && decoder.Valid() && decoder.Settled() && (forall f :: f in ids ==> f.Sound())
      requires forall k :: 0 <= k < |preOpen| ==> |preOpen[k].record.data| <= preOpen[k].charge.bytes
      ensures Owns(hand + multiset{charge})
      ensures Elsewhere(hand + multiset{charge}) == Foreign(ledger, decoder, Stores(), Waiting(preOpen) + hand)
    {
      hide FlowReceiver.Sound, Decoder.Valid, Decoder.Settled, Decoder.Owned, Parted, Foreign, Waiting;
      Decoded(ledger, decoder, Stores(), Waiting(preOpen) + hand, decoder.Owned());
      Reserved(ledger[decoder := decoder.Owned()], decoder, Stores(), Waiting(preOpen) + hand, charge);
      Reassociate(Waiting(preOpen), hand, multiset{charge});
    }

    ghost function Bounds(): Limits {
      LimitsOf(decoder, workBudget)
    }

    method AddSource(id: Id, source: Bytes, oldestUnique: bool, ghost hand: multiset<Charge>)
      returns (res: Result<Batch, FecError>)
      requires Owns(hand)
      modifies decoder, budget
      ensures res.Err? ==> Owns(hand) && Elsewhere(hand) == old(Elsewhere(hand)) && Now(decoder) == old(Now(decoder))
      ensures res.Err? ==>
        MayRefuse(SourceEvent(id, source, oldestUnique, {}), old(Now(decoder)), res.error, Bounds())
      ensures res.Ok? ==> Owns(hand + multiset{res.value.charge}) && Paid(res.value, decoder.rows, decoder.maxBytes)
      ensures res.Ok? ==> Elsewhere(hand + multiset{res.value.charge}) == old(Elsewhere(hand))
      ensures res.Ok? ==>
        Adopts(SourceEvent(id, source, oldestUnique, {}), old(Now(decoder)), Now(decoder), res.value.items, Bounds())
      ensures forall x :: old(Truthful(x)) && id in x && x[id] == source ==>
        && Truthful(x)
        && if res.Ok? then RecoveredTrue(x, res.value.items) else res.error in {WorkBudget, MemoryCapacity}
      ensures Views() == old(Views()) && Loads() == old(Loads())
    {
      hide FlowReceiver.Sound, FlowReceiver.View, FlowReceiver.Burden, Decoder.Settled, Decoder.Explained, Parted;
      hide Foreign, Waiting, MemoryBudget.Valid, Decoder.Shape, Lookup, Window, RecoveredTrue, BatchBytes, AllIds;
      hide Harvested, SubstitutedAll, Ripe, SourceWork, SourceBound, SourceReserve;
      ghost var ledger := budget.ledger;
      DecoderIs();
      ghost var peak;
      res, peak := decoder.AddSource(id, Buffer(source, |source|, false), oldestUnique, workBudget);
      DecoderIs();
      assert Stores() == old(Stores());
      if res.Ok? {
        assert res.value.charge.token !in ledger;
        Batched(ledger, hand, res.value.charge);
        AdoptsRipe(SourceEvent(id, source, oldestUnique, {}), old(Now(decoder)), Now(decoder), res.value.items,
                   Bounds());
      }
    }

    method AddRepair(r: RepairDatagram, ghost hand: multiset<Charge>) returns (res: Result<Batch, FecError>)
      requires Owns(hand) && ValidRepair(r)
      modifies decoder, budget
      ensures res.Err? ==> Owns(hand) && Elsewhere(hand) == old(Elsewhere(hand)) && Now(decoder) == old(Now(decoder))
      ensures res.Err? ==> MayRefuse(RepairEvent(r, {}), old(Now(decoder)), res.error, Bounds())
      ensures res.Ok? ==> Owns(hand + multiset{res.value.charge}) && Paid(res.value, decoder.rows, decoder.maxBytes)
      ensures res.Ok? ==> Elsewhere(hand + multiset{res.value.charge}) == old(Elsewhere(hand))
      ensures res.Ok? ==> Adopts(RepairEvent(r, {}), old(Now(decoder)), Now(decoder), res.value.items, Bounds())
      ensures forall x :: old(Truthful(x)) && GenuineRepair(x, r.firstSymbolId, r.span, r.repairId, r.seed, r.coded) ==>
        && Truthful(x)
        && if res.Ok? then RecoveredTrue(x, res.value.items) else res.error in {WorkBudget, MemoryCapacity, RowCapacity}
      ensures Views() == old(Views()) && Loads() == old(Loads())
    {
      hide FlowReceiver.Sound, FlowReceiver.View, FlowReceiver.Burden, Decoder.Settled, Decoder.Explained, Parted;
      hide Foreign, Waiting, MemoryBudget.Valid, Decoder.Shape, Lookup, Window, RecoveredTrue, BatchBytes, AllIds;
      hide RowOfRepair, GenuineRepair, Harvested, Ripe, RepairWork, RepairBound, RepairReserve, CloneWork;
      ghost var ledger := budget.ledger;
      DecoderIs();
      ghost var row, peak;
      res, row, peak := decoder.AddRepair(r.firstSymbolId, r.span, r.repairId, r.seed, r.coded, workBudget);
      DecoderIs();
      assert Stores() == old(Stores());
      if res.Ok? {
        assert res.value.charge.token !in ledger;
        Batched(ledger, hand, res.value.charge);
        AdoptsRipe(RepairEvent(r, {}), old(Now(decoder)), Now(decoder), res.value.items, Bounds());
      }
    }

    /** src/recovery.rs, `dispatch_recovered`: a recovered symbol joins the known ones, paid for by its charge. */
    method Commit(item: Recovered, charge: Charge, ghost hand: multiset<Charge>) returns (ok: bool)
      requires Owns(hand) && charge in hand && item.symbolId !in AllIds(decoder.rows)
      requires 0 < |item.bytes| == item.retained <= decoder.maxBytes && item.retained <= charge.bytes
      modifies decoder`known, decoder`knownIds, budget
      ensures decoder.known == CommittedOne(old(decoder.known), item, {}, decoder.maxSymbols)
      ensures old(Lookup(decoder.known, item.symbolId)).None? ==> ok
      ensures Owns(hand - multiset{charge}) && Elsewhere(hand - multiset{charge}) == old(Elsewhere(hand))
      ensures forall x :: old(Truthful(x)) && item.symbolId in x && x[item.symbolId] == item.bytes ==> Truthful(x)
      ensures Views() == old(Views()) && Loads() == old(Loads())
    {
      hide FlowReceiver.Sound, FlowReceiver.View, FlowReceiver.Burden, Decoder.Settled, Decoder.Explained, Parted;
      hide Foreign, Waiting, MemoryBudget.Valid, Decoder.Shape, Lookup, Window, AllIds;
      HeldIs(hand, charge);
      DecoderIs();
      ghost var ledger, charges := budget.ledger, Waiting(preOpen) + hand;
      var res := decoder.CommitRecovered(item.symbolId, Buffer(item.bytes, item.retained, true), charge);
      ok := res.Ok?;
      DecoderIs();
      assert Stores() == old(Stores());
      Returned(ledger, decoder, Stores(), charges, charge);
      Decoded(ledger - {charge.token}, decoder, Stores(), charges - multiset{charge}, decoder.Owned());
      assert Waiting(preOpen) + (hand - multiset{charge}) == charges - multiset{charge};
    }

    // ----- pre-open records

    /** All pre-open records are taken out, with their charges. */
    method TakeAll(ghost hand: multiset<Charge>) returns (records: seq<PreOpenRecord>)
      requires Owns(hand)
      modifies this`preOpen
      ensures preOpen == [] && records == old(preOpen)
      ensures Owns(hand + Waiting(records)) && Elsewhere(hand + Waiting(records)) == old(Elsewhere(hand))
      ensures Views() == old(Views()) && Loads() == old(Loads())
      ensures forall k :: 0 <= k < |records| ==> |records[k].record.data| <= records[k].charge.bytes
    {
      hide FlowReceiver.Sound, FlowReceiver.View, FlowReceiver.Burden, Decoder.Valid, Decoder.Settled, Parted, Foreign;
      records := preOpen;
      preOpen := [];
      assert Stores() == old(Stores());
      assert Waiting(preOpen) + (hand + Waiting(records)) == Waiting(records) + hand;
    }

    /** src/recovery.rs, `prune_pre_open`: the records that waited too long give up their places and charges. */
    method Prune(now: nat, ghost hand: multiset<Charge>, ghost promised: nat)
      requires Valid(hand, promised)
      modifies this`preOpen, this`preOpenCount, this`dropped, budget
      ensures Valid(hand, promised) && preOpen == Unexpired(old(preOpen), now)
      ensures budget.used <= old(budget.used) && preOpenCount <= old(preOpenCount)
      ensures dropped == old(dropped) + |old(preOpen)| - |preOpen|
      ensures Elsewhere(hand) == old(Elsewhere(hand)) && Views() == old(Views()) && Loads() == old(Loads())
      ensures forall x :: old(Truthful(x)) ==> Truthful(x)
    {
      hide Owns, Elsewhere, Views, Loads, Waiting, Unexpired, Decoder.Explained, SentIn, Strangers;
      UnexpiredFrom(preOpen, now);
      UnexpiredStrangers(preOpen, now, flows);
      var records := TakeAll(hand);
      var i := 0;
      WaitingNone(hand, now);
      assert records[0..] == records;
      while i < |records|
        invariant 0 <= i <= |records|
        invariant Owns(hand + Waiting(records[i..])) && Elsewhere(hand + Waiting(records[i..])) == old(Elsewhere(hand))
        invariant Views() == old(Views()) && Loads() == old(Loads())
        invariant preOpenCount == old(preOpenCount) && dropped == old(dropped)
        invariant budget.used <= old(budget.used)
        invariant |preOpen| <= i && preOpen + Unexpired(records[i..], now) == Unexpired(records, now)
      {
        var r := records[i];
        WaitingNext(hand, records, i);
        UnexpiredNext(preOpen, records, i, now);
        if r.expiresAt > now {
          Keep(r, hand + Waiting(records[i..]));
        } else {
          Discard(r.charge, hand + Waiting(records[i..]));
        }
        i := i + 1;
      }
      assert records[i..] == [];
      var removed := |records| - |preOpen|;
      Recount(preOpenCount - removed, hand);
      DropDatagram(removed, hand);
      assert preOpen == Unexpired(records, now);
    }

    method Recount(count: nat, ghost hand: multiset<Charge>)
      requires Owns(hand)
      modifies this`preOpenCount
      ensures preOpenCount == count && Owns(hand) && Elsewhere(hand) == old(Elsewhere(hand))
      ensures Views() == old(Views()) && Loads() == old(Loads())
    {
      hide FlowReceiver.Sound, FlowReceiver.View, FlowReceiver.Burden, Decoder.Valid, Decoder.Settled, Parted;
      hide Foreign, Waiting;
      preOpenCount := count;
      assert Stores() == old(Stores());
    }

    lemma WaitingNone(hand: multiset<Charge>, now: nat)
      ensures hand + Waiting([]) == hand && Unexpired([], now) == []
    {
    }

    lemma WaitingNext(hand: multiset<Charge>, records: seq<PreOpenRecord>, i: nat)
      requires i < |records|
      ensures records[i].charge in hand + Waiting(records[i..])
      ensures hand + Waiting(records[i..]) - multiset{records[i].charge} == hand + Waiting(records[i + 1..])
    {
      assert Waiting(records[i..]) == multiset{records[i].charge} + Waiting(records[i + 1..]) by {
        assert records[i..][1..] == records[i + 1..];
      }
    }

    // ----- records in transit

    function Find(flowId: nat): Option<FlowReceiver>
      reads this`flows
    {
      if flowId in flows then Some(flows[flowId]) else None
    }

    /** Every record is on its way to a living flow of its own stream, or to none. */
    ghost predicate Routed(records: seq<PendingRecord>)
      reads this`ids
    {
      forall k :: 0 <= k < |records| && records[k].flow.Some? ==>
        records[k].flow.value in ids && ids[records[k].flow.value] == records[k].record.flowId
    }

    method FindFlows(records: seq<PendingRecord>, ghost rest: multiset<Charge>) returns (out: seq<PendingRecord>)
      requires Owns(rest + InHand(records))
      ensures Owns(rest + InHand(out)) && Views() == old(Views()) && Loads() == old(Loads())
      ensures Elsewhere(rest + InHand(out)) == old(Elsewhere(rest + InHand(records)))
      ensures |out| == |records| && Routed(out) && Sought(out, ids, flows) && InHand(out) == InHand(records)
      ensures forall k :: 0 <= k < |out| ==> out[k] == records[k].(flow := Find(records[k].record.flowId))
    {
      hide Owns, Elsewhere, Views, Loads, InHand;
      OwnsApart(rest + InHand(records));
      out := [];
      var i := 0;
      while i < |records|
        invariant 0 <= i <= |records| && |out| == i
        invariant forall k :: 0 <= k < i ==> out[k] == records[k].(flow := Find(records[k].record.flowId))
      {
        out := out + [records[i].(flow := Find(records[i].record.flowId))];
        i := i + 1;
      }
      InHandSame(out, records);
    }

    /** Every record without a charge gets its part of `charge`, which is exactly enough. */
    method ChargeAll(records: seq<PendingRecord>, charge: Charge, ghost rest: multiset<Charge>)
      returns (out: seq<PendingRecord>)
      requires Owns(rest + InHand(records) + multiset{charge}) && charge.bytes == Owing(records)
      requires forall k :: 0 <= k < |records| ==>
        if records[k].charge.Some? then records[k].Charged() else |records[k].record.data| <= records[k].retained
      modifies budget
      ensures SameRecords(out, records) && AllCharged(out) && Views() == old(Views()) && Loads() == old(Loads())
      ensures budget.used <= old(budget.used)
      ensures Owns(rest + InHand(out))
      ensures Elsewhere(rest + InHand(out)) == old(Elsewhere(rest + InHand(records) + multiset{charge}))
    {
      hide Owns, Elsewhere, Views, Loads, InHand, Owing, Sharing, Cost, Objects;
      out := [];
      var i, left := 0, charge;
      ShareStart(rest, records, charge);
      assert records[0..] == records;
      while i < |records|
        invariant 0 <= i <= |records| && |out| == i && left.bytes == Owing(records[i..])
        invariant budget.used == old(budget.used)
        invariant forall k :: 0 <= k < i ==>
          out[k].record == records[k].record && out[k].flow == records[k].flow && out[k].Charged()
        invariant Owns(Sharing(rest, out, records[i..], left)) && Views() == old(Views()) && Loads() == old(Loads())
        invariant Elsewhere(Sharing(rest, out, records[i..], left)) ==
            old(Elsewhere(rest + InHand(records) + multiset{charge}))
      {
        var r := records[i];
        InHandNext(records, i);
        if r.charge.Some? {
          ShareNext(rest, out, records, left, i);
          out := out + [r];
        } else {
          r, left := ChargeOne(records, i, left, rest, out);
          out := out + [r];
        }
        i := i + 1;
      }
      assert records[i..] == [];
      ShareStart(rest, out, left);
      SharingHas(rest, out, [], left);
      Discard(left, Sharing(rest, out, [], left));
    }

    /** One record gets its part of what is left. */
    method ChargeOne(records: seq<PendingRecord>, i: nat, left: Charge, ghost rest: multiset<Charge>,
                     ghost out: seq<PendingRecord>)
      returns (r: PendingRecord, less: Charge)
      requires i < |records| && Owns(Sharing(rest, out, records[i..], left)) && records[i].charge.None?
      requires Cost(records[i]) <= left.bytes && |records[i].record.data| <= records[i].retained
      modifies budget
      ensures r.record == records[i].record && r.flow == records[i].flow && r.Charged()
      ensures less.bytes == left.bytes - Cost(records[i]) && budget.used == old(budget.used)
      ensures Owns(Sharing(rest, out + [r], records[i + 1..], less))
      ensures Elsewhere(Sharing(rest, out + [r], records[i + 1..], less)) ==
          old(Elsewhere(Sharing(rest, out, records[i..], left)))
      ensures Views() == old(Views()) && Loads() == old(Loads())
    {
      hide Owns, Elsewhere, Views, Loads, Sharing;
      var size := Cost(records[i]);
      SharingHas(rest, out, records[i..], left);
      var part;
      part, less := Divide(left, size, Sharing(rest, out, records[i..], left));
      r := records[i].(retained := size, charge := Some(part));
      ShareOut(rest, out, records, left, less, part, i, r);
    }

    lemma SharingHas(rest: multiset<Charge>, done: seq<PendingRecord>, left: seq<PendingRecord>, charge: Charge)
      ensures charge in Sharing(rest, done, left, charge)
    {
    }

    /** src/recovery.rs, `reserve_source_records`: a place and a charge for every record, or neither for any. */
    method Reserve(records: seq<PendingRecord>, now: nat, ghost rest: multiset<Charge>, ghost promised: nat)
      returns (ok: bool, out: seq<PendingRecord>)
      requires Valid(rest + InHand(records), promised)
      requires forall k :: 0 <= k < |records| ==>
        if records[k].charge.Some? then records[k].Charged() else |records[k].record.data| <= records[k].retained
      modifies this`preOpen, this`preOpenCount, this`dropped, budget
      ensures |out| == |records| && Routed(out) && forall k :: 0 <= k < |out| ==> out[k].record == records[k].record
      ensures Sought(out, ids, flows)
      ensures ok ==> Valid(rest + InHand(out), promised + Unopened(out)) && AllCharged(out)
      ensures !ok ==> Valid(rest + InHand(out), promised)
      ensures !ok ==>
        (Unopened(out) > 0 && preOpenCount + Unopened(out) > preOpenLimit) || budget.used + Owing(out) > budget.limit
      ensures !ok ==>
        old(preOpenCount) + |records| > preOpenLimit || old(budget.used) + Due(records) > budget.limit
      ensures ok ==> budget.used <= old(budget.used) + Due(records)
      ensures Elsewhere(rest + InHand(out)) == old(Elsewhere(rest + InHand(records)))
      ensures preOpen == Unexpired(old(preOpen), now) && dropped == old(dropped) + |old(preOpen)| - |preOpen|
      ensures Views() == old(Views()) && Loads() == old(Loads())
      ensures Onward(ids, old(State()), State(), now)
      ensures preOpenCount <= old(preOpenCount) + if ok then |records| else 0
      ensures forall x :: old(Truthful(x)) ==> Truthful(x)
    {
      hide Unclaimed, Owns, Elsewhere, Views, Loads, InHand, Owing, Unopened, Unexpired, Apart, Truthful, Onward, Due;
      assert Views().Keys == ids.Keys == Loads().Keys by { StoresAre(); }
      OnwardPruned(ids, State(), now);
      Prune(now, rest + InHand(records), promised);
      out := FindFlows(records, rest);
      UnopenedMost(out);
      OwingMost(out, records);
      var needed := Unopened(out);
      if needed != 0 && preOpenCount + needed > preOpenLimit {
        return false, out;
      }
      var reserved := Draw(Owing(out), rest + InHand(out));
      if reserved.None? {
        return false, out;
      }
      ghost var looked := out;
      out := ChargeAll(out, reserved.value, rest);
      UnopenedSame(out, looked);
      SoughtSame(out, looked, ids, flows);
      Recount(preOpenCount + needed, rest + InHand(out));
      return true, out;
    }

    /** src/recovery.rs, `release_source_reservations`, with the records themselves. */
    method Release(records: seq<PendingRecord>, ghost rest: multiset<Charge>, ghost promised: nat)
      requires Valid(rest + InHand(records), promised + Unopened(records))
      modifies this`preOpenCount, budget
      ensures Valid(rest, promised) && Elsewhere(rest) == old(Elsewhere(rest + InHand(records)))
      ensures preOpenCount <= old(preOpenCount)
      ensures Views() == old(Views()) && Loads() == old(Loads())
    {
      hide Unclaimed, Owns, Elsewhere, Views, Loads, InHand, Unopened;
      Recount(preOpenCount - Unopened(records), rest + InHand(records));
      DropAll(records, rest);
    }

    lemma SoughtSame(a: seq<PendingRecord>, b: seq<PendingRecord>, ids: map<FlowReceiver, nat>,
                     flows: map<nat, FlowReceiver>)
      requires SameRecords(a, b) && Sought(b, ids, flows)
      ensures Sought(a, ids, flows)
    {
    }

    /** Records that go no further give their charges back. */
    method DropAll(records: seq<PendingRecord>, ghost rest: multiset<Charge>)
      requires Owns(rest + InHand(records))
      modifies budget
      ensures Owns(rest) && Elsewhere(rest) == old(Elsewhere(rest + InHand(records)))
      ensures Views() == old(Views()) && Loads() == old(Loads())
    {
      hide Owns, Elsewhere, Views, Loads, InHand;
      ghost var others := Elsewhere(rest + InHand(records));
      var i := 0;
      assert records[0..] == records;
      while i < |records|
        invariant 0 <= i <= |records|
        invariant Owns(rest + InHand(records[i..])) && Views() == old(Views()) && Loads() == old(Loads())
        invariant Elsewhere(rest + InHand(records[i..])) == others
      {
        SpendNext(rest, records, i);
        if records[i].charge.Some? {
          Discard(records[i].charge.value, rest + InHand(records[i..]));
        }
        i := i + 1;
      }
      assert records[i..] == [];
      SpentAll(rest);
    }

    lemma SpendNext(rest: multiset<Charge>, records: seq<PendingRecord>, i: nat)
      requires i < |records|
      ensures records[i].charge.None? ==> rest + InHand(records[i..]) == rest + InHand(records[i + 1..])
      ensures records[i].charge.Some? ==>
        && records[i].charge.value in rest + InHand(records[i..])
        && rest + InHand(records[i..]) - multiset{records[i].charge.value} == rest + InHand(records[i + 1..])
    {
      InHandNext(records, i);
      hide InHand;
    }

    lemma SpentAll(rest: multiset<Charge>)
      ensures rest + InHand([]) == rest
    {
    }

    /** A flow is offered a record, and if it refuses a drop is counted. */
    method Offer(f: FlowReceiver, r: Record, charge: Charge, ghost hand: multiset<Charge>)
      returns (error: Option<RecoveryError>)
      requires Owns(hand) && f in ids && charge in hand && |r.data| <= charge.bytes
      modifies this`dropped, budget, f, f.receive, f.received
      ensures Owns(hand - multiset{charge}) && Elsewhere(hand - multiset{charge}) == old(Elsewhere(hand))
      ensures Receives(old(f.View()), f.View(), r.offset, r.data, r.fin, error)
      ensures error.Some? ==> Cause(old(f.View()), old(f.Burden()), r.offset, r.data, r.fin, error.value)
      ensures Fills(old(f.Burden()), f.Burden())
      ensures Views() == old(Views())[f := f.View()] && Loads() == old(Loads())[f := f.Burden()]
      ensures dropped == old(dropped) + if error.Some? then 1 else 0
    {
      hide Owns, Elsewhere, Views, Loads, FlowReceiver.View, FlowReceiver.Burden, Cause, Fills, Receives, Objects;
      error := Deliver(f, r, charge, hand);
      if error.Some? {
        DropDatagram(1, hand - multiset{charge});
      }
    }

    /** A record goes to its flow, or its drop is counted. */
    method GiveTo(f: FlowReceiver, r: Record, charge: Charge, ghost hand: multiset<Charge>, ghost x: Assignment,
                  ghost clock: nat)
      returns (error: Option<RecoveryError>)
      requires Owns(hand) && f in ids && ids[f] == r.flowId && charge in hand && |r.data| <= charge.bytes
      modifies this`dropped, budget, f, f.receive, f.received
      ensures Owns(hand - multiset{charge}) && Elsewhere(hand - multiset{charge}) == old(Elsewhere(hand))
      ensures Onward(ids, old(State()), State(), clock) && Told(f, r, error, old(State()), State())
      ensures old(Truthful(x)) ==> Truthful(x)
      ensures SentIn(x, decoder.maxBytes, r) ==> AllFed(x, decoder.maxBytes, ids, old(Views()), Views())
      ensures ids == old(ids) && flows == old(flows) && Objects() == old(Objects())
      ensures decoder.rows == old(decoder.rows) && decoder.known == old(decoder.known)
      ensures Receives(old(f.View()), f.View(), r.offset, r.data, r.fin, error)
      ensures dropped == old(dropped) + if error.Some? then 1 else 0
    {
      hide Owns, Elsewhere, Views, Loads, Fed, AllFed, SentIn, Decoder.Explained, FlowReceiver.View, Onward, Objects;
      hide FlowReceiver.Burden, Told, Cause, Fills, Receives;
      ghost var was, view, load := State(), f.View(), f.Burden();
      assert was.views.Keys == ids.Keys == was.loads.Keys && was.views[f] == view && was.loads[f] == load by {
        StoresAre();
      }
      error := Offer(f, r, charge, hand);
      if SentIn(x, decoder.maxBytes, r) {
        AllFedOnce(x, decoder.maxBytes, ids, was.views, f, r, f.View(), error);
      }
      OnwardGiven(ids, was, f, r, f.View(), f.Burden(), error, clock);
    }

    /** A record of a stream without a registered flow waits for one. */
    method Park(r: PendingRecord, now: nat, ghost rest: multiset<Charge>, ghost promised: nat, ghost x: Assignment)
      requires Valid(rest + Purse(r.charge), promised + 1) && r.Charged()
      requires r.flow.None? && r.record.flowId !in flows
      modifies this`preOpen
      ensures Valid(rest, promised) && Elsewhere(rest) == old(Elsewhere(rest + Purse(r.charge)))
      ensures Views() == old(Views()) && Loads() == old(Loads())
      ensures preOpen == old(preOpen) + [PreOpenRecord(r.record, r.charge.value, now + PRE_OPEN_TTL)]
      ensures Onward(ids, old(State()), State(), now) && AllPlaced([r], ids, old(State()), State(), now)
      ensures old(Truthful(x)) && SentIn(x, decoder.maxBytes, r.record) ==> Truthful(x)
    {
      hide Owns, Elsewhere, Views, Loads, SentIn, Truthful, Onward, AllPlaced, Strangers, Objects;
      assert Views().Keys == ids.Keys == Loads().Keys by { StoresAre(); }
      var charge := r.charge.value;
      ghost var hand := rest + Purse(r.charge);
      assert charge in hand && hand - multiset{charge} == rest;
      var waiting := PreOpenRecord(r.record, charge, now + PRE_OPEN_TTL);
      OnwardKept(ids, State(), r, waiting, now);
      StrangersNext(preOpen, waiting, flows);
      Keep(waiting, hand);
    }

    /** A record goes to the flow that was found for it. */
    method Pass(f: FlowReceiver, r: PendingRecord, ghost rest: multiset<Charge>, ghost promised: nat,
                ghost x: Assignment, ghost clock: nat)
      returns (reset: Option<FlowReceiver>, ghost error: Option<RecoveryError>)
      requires Valid(rest + Purse(r.charge), promised) && r.Charged() && f in ids && ids[f] == r.record.flowId
      requires r.flow == Some(f) || (r.flow.None? && r.record.flowId in flows && flows[r.record.flowId] == f)
      modifies this`dropped, budget, f, f.receive, f.received
      ensures Valid(rest, promised) && Elsewhere(rest) == old(Elsewhere(rest + Purse(r.charge)))
      ensures ids == old(ids) && flows == old(flows) && Objects() == old(Objects())
      ensures decoder.rows == old(decoder.rows) && decoder.known == old(decoder.known)
      ensures reset == if Blames(error) then Some(f) else None
      ensures dropped == old(dropped) + if error.Some? then 1 else 0
      ensures Onward(ids, old(State()), State(), clock) && AllPlaced([r], ids, old(State()), State(), clock)
      ensures Judged(r, error, old(State()), State())
      ensures old(Truthful(x)) ==> Truthful(x)
      ensures SentIn(x, decoder.maxBytes, r.record) ==> AllFed(x, decoder.maxBytes, ids, old(Views()), Views())
    {
      hide Owns, Elsewhere, Views, Loads, Fed, AllFed, SentIn, Truthful, FlowReceiver.View, Onward, AllPlaced;
      hide Objects, Offered, Told, Unclaimed, Counted;
      ghost var was, hand := State(), rest + Purse(r.charge);
      var charge := r.charge.value;
      assert charge in hand && hand - multiset{charge} == rest;
      var answer := GiveTo(f, r.record, charge, hand, x, clock);
      error := answer;
      ToldIsOffered(f, r.record, error, ids, was, State());
      PlacedOffered(r, ids, was, State(), f, clock);
      reset := if Blames(answer) then Some(f) else None;
    }

    /** src/recovery.rs, `dispatch_reserved_source`, for one record: to its flow, or among the pre-open records. */
    method DispatchOne(r: PendingRecord, now: nat, ghost rest: multiset<Charge>, ghost promised: nat,
                       ghost x: Assignment)
      returns (reset: Option<FlowReceiver>, ghost error: Option<RecoveryError>)
      requires Valid(rest + Purse(r.charge), promised + (if r.flow.None? then 1 else 0)) && r.Charged() && Routed([r])
      modifies this`preOpen, this`preOpenCount, this`dropped, budget, Objects()
      ensures Valid(rest, promised) && Elsewhere(rest) == old(Elsewhere(rest + Purse(r.charge)))
      ensures ids == old(ids) && flows == old(flows) && Objects() == old(Objects())
      ensures decoder.rows == old(decoder.rows) && decoder.known == old(decoder.known)
      ensures reset == if Blames(error) then Target(r, flows) else None
      ensures dropped == old(dropped) + if error.Some? then 1 else 0
      ensures Onward(ids, old(State()), State(), now) && AllPlaced([r], ids, old(State()), State(), now)
      ensures Judged(r, error, old(State()), State())
      ensures preOpenCount <= old(preOpenCount)
      ensures old(Truthful(x)) && SentIn(x, decoder.maxBytes, r.record) ==>
        Truthful(x) && AllFed(x, decoder.maxBytes, ids, old(Views()), Views())
    {
      hide Owns, Elsewhere, Views, Loads, Fed, AllFed, SentIn, Truthful, Onward, AllPlaced, Objects, Purse, Unclaimed;
      OwnsApart(rest + Purse(r.charge));
      assert Routed([r]) && [r][0] == r;
      var found := r.flow;
      if found.None? {
        found := Find(r.record.flowId);
        if found.None? {
          assert Views().Keys == ids.Keys == Loads().Keys by { StoresAre(); }
          AllFedNone(x, decoder.maxBytes, ids, Views());
          Park(r, now, rest, promised, x);
          return None, None;
        }
        Recount(preOpenCount - 1, rest + Purse(r.charge));
      }
      InObjects(found.value);
      reset, error := Pass(found.value, r, rest, promised, x, now);
    }

    /** src/recovery.rs, `dispatch_reserved_source`. */
    method Dispatch(records: seq<PendingRecord>, now: nat, ghost rest: multiset<Charge>, ghost promised: nat,
                    ghost x: Assignment)
      returns (resets: set<FlowReceiver>, ghost errors: seq<Option<RecoveryError>>)
      requires Valid(rest + InHand(records), promised + Unopened(records)) && AllCharged(records) && Routed(records)
      modifies this`preOpen, this`preOpenCount, this`dropped, budget, Objects()
      ensures Valid(rest, promised) && Elsewhere(rest) == old(Elsewhere(rest + InHand(records)))
      ensures ids == old(ids) && flows == old(flows) && Objects() == old(Objects())
      ensures decoder.rows == old(decoder.rows) && decoder.known == old(decoder.known)
      ensures resets <= ids.Keys
      ensures Onward(ids, old(State()), State(), now) && AllPlaced(records, ids, old(State()), State(), now)
      ensures AllJudged(records, errors, resets, old(State()), State())
      ensures preOpenCount <= old(preOpenCount)
      ensures old(Truthful(x)) && AllSent(x, decoder.maxBytes, records) ==>
        Truthful(x) && AllFed(x, decoder.maxBytes, ids, old(Views()), Views())
    {
      hide Unclaimed, Counted, Owns, Elsewhere, Views, Loads, Fed, AllFed, SentIn, Truthful, InHand, Unopened, Purse;
      hide Objects, Onward, AllPlaced, Judged, AllJudged, Target, Blames;
      ghost var others, was, truthful := Elsewhere(rest + InHand(records)), State(), Truthful(x);
      assert Views().Keys == ids.Keys == Loads().Keys by { StoresAre(); }
      AllFedNone(x, decoder.maxBytes, ids, was.views);
      OnwardNone(ids, was, now);
      NonePlaced(ids, was, now);
      NoneJudged(was);
      resets, errors := {}, [];
      var i := 0;
      assert records[0..] == records && records[..0] == [];
      while i < |records|
        invariant 0 <= i <= |records| && resets <= ids.Keys
        invariant ids == old(ids) && flows == old(flows) && Objects() == old(Objects())
        invariant decoder.rows == old(decoder.rows) && decoder.known == old(decoder.known)
        invariant Valid(rest + InHand(records[i..]), promised + Unopened(records[i..]))
        invariant Elsewhere(rest + InHand(records[i..])) == others
        invariant Onward(ids, was, State(), now) && AllPlaced(records[..i], ids, was, State(), now)
        invariant AllJudged(records[..i], errors, resets, was, State())
        invariant preOpenCount <= old(preOpenCount)
        invariant truthful && AllSent(x, decoder.maxBytes, records) ==>
          Truthful(x) && AllFed(x, decoder.maxBytes, ids, was.views, Views())
      {
        ghost var before := State();
        resets, errors := DispatchNext(records, i, now, resets, rest, promised, x, was, errors);
        if truthful && AllSent(x, decoder.maxBytes, records) {
          AllFedTwice(x, decoder.maxBytes, ids, was.views, before.views, Views());
        }
        i := i + 1;
      }
      assert records[i..] == [] && records[..i] == records;
      InHandEmpty();
      SpentAll(rest);
    }

    /** One turn of the loop. */
    method DispatchNext(records: seq<PendingRecord>, i: nat, now: nat, resets: set<FlowReceiver>,
                        ghost rest: multiset<Charge>, ghost promised: nat, ghost x: Assignment,
                        ghost was: Progress<FlowReceiver>, ghost errors: seq<Option<RecoveryError>>)
      returns (resets': set<FlowReceiver>, ghost errors': seq<Option<RecoveryError>>)
      requires i < |records| && records[i].Charged() && Routed(records) && resets <= ids.Keys
      requires Valid(rest + InHand(records[i..]), promised + Unopened(records[i..]))
      requires Onward(ids, was, State(), now) && AllPlaced(records[..i], ids, was, State(), now)
      requires AllJudged(records[..i], errors, resets, was, State())
      modifies this`preOpen, this`preOpenCount, this`dropped, budget, Objects()
      ensures Valid(rest + InHand(records[i + 1..]), promised + Unopened(records[i + 1..]))
      ensures Elsewhere(rest + InHand(records[i + 1..])) == old(Elsewhere(rest + InHand(records[i..])))
      ensures ids == old(ids) && flows == old(flows) && Objects() == old(Objects()) && resets' <= ids.Keys
      ensures decoder.rows == old(decoder.rows) && decoder.known == old(decoder.known)
      ensures Onward(ids, was, State(), now) && AllPlaced(records[..i + 1], ids, was, State(), now)
      ensures AllJudged(records[..i + 1], errors', resets', was, State())
      ensures preOpenCount <= old(preOpenCount)
      ensures old(Truthful(x)) && SentIn(x, decoder.maxBytes, records[i].record) ==>
        Truthful(x) && AllFed(x, decoder.maxBytes, ids, old(Views()), Views())
    {
      hide Unclaimed, Counted, Owns, Elsewhere, Views, Loads, Fed, AllFed, SentIn, Truthful, InHand, Unopened, Purse;
      hide Objects, Onward, AllPlaced, Judged, AllJudged, Target, Blames;
      ghost var before := State();
      OwnsApart(rest + InHand(records[i..]));
      RoutedTargets(records);
      ghost var later, places := rest + InHand(records[i + 1..]), promised + Unopened(records[i + 1..]);
      InHandNext(records, i);
      Takes(rest, Purse(records[i].charge), InHand(records[i + 1..]));
      assert Routed([records[i]]);
      var reset;
      ghost var error;
      reset, error := DispatchOne(records[i], now, later, places, x);
      OnwardCounts(ids, before, State(), now);
      PlacedNext(records, i, ids, was, before, State(), now);
      JudgedNext(records, i, errors, resets, error, reset, ids, was, before, State(), now);
      resets', errors' := if reset.Some? then resets + {reset.value} else resets, errors + [error];
    }

    lemma RoutedTargets(records: seq<PendingRecord>)
      requires Routed(records) && Apart()
      ensures forall k :: 0 <= k < |records| && Target(records[k], flows).Some? ==>
        Target(records[k], flows).value in ids
    {
    }

    lemma Takes(rest: multiset<Charge>, head: multiset<Charge>, tail: multiset<Charge>)
      ensures rest + (head + tail) == rest + tail + head
    {
    }

    /** The records of a datagram, each with its part of a charge that covers them all. */
    method Parcel(records: seq<Record>, charge: Charge, ghost rest: multiset<Charge>)
      returns (out: seq<PendingRecord>, left: Charge)
      requires Owns(rest + multiset{charge}) && DataBytes(records) <= charge.bytes
      modifies budget
      ensures Parcels(records, out) && left.bytes == charge.bytes - DataBytes(records)
      ensures Views() == old(Views()) && Loads() == old(Loads())
      ensures budget.used == old(budget.used)
      ensures Owns(rest + multiset{left} + InHand(out))
      ensures Elsewhere(rest + multiset{left} + InHand(out)) == old(Elsewhere(rest + multiset{charge}))
    {
      hide Owns, Elsewhere, Views, Loads, InHand, DataBytes;
      ghost var others := Elsewhere(rest + multiset{charge});
      out, left := [], charge;
      SpentAll(rest + multiset{charge});
      var i := 0;
      assert records[0..] == records;
      while i < |records|
        invariant 0 <= i <= |records| && Parcels(records[..i], out)
        invariant Views() == old(Views()) && Loads() == old(Loads())
        invariant budget.used == old(budget.used)
        invariant left.bytes - DataBytes(records[i..]) == charge.bytes - DataBytes(records)
        invariant Owns(rest + multiset{left} + InHand(out)) && Elsewhere(rest + multiset{left} + InHand(out)) == others
      {
        var size := |records[i].data|;
        DataNext(records, i);
        ghost var was := left;
        assert left in rest + multiset{left} + InHand(out);
        var part, less := Divide(left, size, rest + multiset{left} + InHand(out));
        var r := PendingRecord(None, records[i], size, Some(part));
        ParcelNext(rest, out, was, less, part, r);
        out, left, i := out + [r], less, i + 1;
      }
      assert records[i..] == [] && records[..i] == records;
      NoData();
    }

    lemma NoData()
      ensures DataBytes([]) == 0
    {
    }

    /** One more drop is counted. */
    method Lose(ghost hand: multiset<Charge>, ghost was: Progress<FlowReceiver>, ghost clock: nat)
      requires Owns(hand) && Onward(ids, was, State(), clock)
      modifies this`dropped
      ensures dropped == old(dropped) + 1 && Owns(hand) && Elsewhere(hand) == old(Elsewhere(hand))
      ensures Views() == old(Views()) && Loads() == old(Loads())
      ensures Onward(ids, was, State(), clock) && was.dropped < dropped
    {
      hide Owns, Elsewhere, Views, Loads, Onward;
      OnwardDropped(ids, was, State(), 0, clock);
      DropDatagram(1, hand);
    }

    /**
     * A recovered symbol that is readable: a place and a charge for its records, then the symbol itself, then the
     * records.
     */
    method DispatchRead(item: Recovered, records: seq<PendingRecord>, charge: Charge, now: nat,
                        ghost rest: multiset<Charge>, ghost promised: nat, ghost x: Assignment)
      returns (left: Charge, taken: bool, resets: set<FlowReceiver>, ghost lost: set<Id>)
      requires Valid(rest + multiset{charge} + InHand(records), promised) && AllCharged(records)
      requires item.symbolId !in AllIds(decoder.rows) && Lookup(decoder.known, item.symbolId).None?
      requires 0 < |item.bytes| == item.retained <= decoder.maxBytes && item.retained <= charge.bytes
      modifies this`preOpen, this`preOpenCount, this`dropped, budget, decoder`known, decoder`knownIds, Objects()
      ensures Valid(rest + multiset{left}, promised)
      ensures left.bytes == charge.bytes - (if taken then item.retained else 0)
      ensures Elsewhere(rest + multiset{left}) == old(Elsewhere(rest + multiset{charge} + InHand(records)))
      ensures ids == old(ids) && flows == old(flows) && Objects() == old(Objects()) && resets <= ids.Keys
      ensures decoder.rows == old(decoder.rows)
      ensures decoder.known == CommittedOne(old(decoder.known), item, lost, decoder.maxSymbols)
      ensures lost <= {item.symbolId} && (lost != {} ==> old(dropped) < dropped)
      ensures Onward(ids, old(State()), State(), now)
      ensures lost == {} ==> AllReached(Plain(records), ids, old(State()), State(), now)
      ensures lost != {} ==> old(preOpenCount) + |records| > preOpenLimit
      ensures preOpenCount <= old(preOpenCount) + |records|
      ensures
        (&& old(Truthful(x)) && item.symbolId in x && x[item.symbolId] == item.bytes
         && AllSent(x, decoder.maxBytes, records)) ==>
        Truthful(x) && AllFed(x, decoder.maxBytes, ids, old(Views()), Views())
    {
      hide Unclaimed, Counted, Owns, Elsewhere, Views, Loads, Fed, AllFed, SentIn, Truthful, InHand, Unopened;
      hide Objects, AllIds, Onward, AllReached, AllPlaced, Sought, Lookup, Unexpired, Owing, CommittedOne, Due, Apart;
      assert Views().Keys == ids.Keys == Loads().Keys by { StoresAre(); }
      ghost var was := State();
      AllFedNone(x, decoder.maxBytes, ids, was.views);
      left, taken, resets, lost := charge, false, {}, {item.symbolId};
      LostOne(decoder.known, item, decoder.maxSymbols);
      OwnsWithin(rest + multiset{charge} + InHand(records));
      NothingDue(records);
      var ok, out := Reserve(records, now, rest + multiset{left}, promised);
      assert Plain(out) == Plain(records);
      OnwardCounts(ids, was, State(), now);
      if !ok {
        DropAll(out, rest + multiset{left});
        Lose(rest + multiset{left}, was, now);
        return;
      }
      ghost var middle := State();
      left, resets := CommitAndDispatch(item, out, charge, now, rest, promised, x);
      taken, lost := true, {};
      PlacedIsReached(out, ids, middle, State(), now);
      AllReachedFrom(Plain(out), ids, was, middle, State(), now);
      OnwardTwice(ids, was, middle, State(), now);
    }

    /** The rest of it, once the records have their places and charges. */
    method CommitAndDispatch(item: Recovered, records: seq<PendingRecord>, charge: Charge, now: nat,
                             ghost rest: multiset<Charge>, ghost promised: nat, ghost x: Assignment)
      returns (left: Charge, resets: set<FlowReceiver>)
      requires Valid(rest + multiset{charge} + InHand(records), promised + Unopened(records))
      requires AllCharged(records) && Routed(records)
      requires item.symbolId !in AllIds(decoder.rows) && Lookup(decoder.known, item.symbolId).None?
      requires 0 < |item.bytes| == item.retained <= decoder.maxBytes && item.retained <= charge.bytes
      modifies this`preOpen, this`preOpenCount, this`dropped, budget, decoder`known, decoder`knownIds, Objects()
      ensures Valid(rest + multiset{left}, promised) && left.bytes == charge.bytes - item.retained
      ensures Elsewhere(rest + multiset{left}) == old(Elsewhere(rest + multiset{charge} + InHand(records)))
      ensures ids == old(ids) && flows == old(flows) && Objects() == old(Objects()) && resets <= ids.Keys
      ensures decoder.rows == old(decoder.rows)
      ensures decoder.known == CommittedOne(old(decoder.known), item, {}, decoder.maxSymbols)
      ensures Onward(ids, old(State()), State(), now) && AllPlaced(records, ids, old(State()), State(), now)
      ensures preOpenCount <= old(preOpenCount)
      ensures
        (&& old(Truthful(x)) && item.symbolId in x && x[item.symbolId] == item.bytes
         && AllSent(x, decoder.maxBytes, records)) ==>
        Truthful(x) && AllFed(x, decoder.maxBytes, ids, old(Views()), Views())
    {
      hide Unclaimed, Counted, Owns, Elsewhere, Views, Loads, Fed, AllFed, SentIn, Truthful, InHand, Unopened;
      hide Objects, AllIds, Onward, AllPlaced, CommittedOne, AllSent, Lookup;
      assert Views().Keys == ids.Keys == Loads().Keys by { StoresAre(); }
      ghost var was, hand := State(), rest + multiset{charge} + InHand(records);
      AllFedNone(x, decoder.maxBytes, ids, was.views);
      resets := {};
      assert charge in hand;
      var part;
      part, left := Divide(charge, item.retained, hand);
      Parting(rest, charge, left, part, InHand(records));
      var ok := Commit(item, part, rest + multiset{left} + InHand(records) + multiset{part});
      assert ok;
      ghost var errors;
      resets, errors := Dispatch(records, now, rest + multiset{left}, promised, x);
    }

    /** One recovered symbol: its records are reserved, the symbol becomes known, and the records go to their flows. */
    method DispatchItem(item: Recovered, charge: Charge, retained: nat, now: nat, ghost rest: multiset<Charge>,
                        ghost promised: nat, ghost x: Assignment)
      returns (left: Charge, kept: nat, resets: set<FlowReceiver>, ghost lost: set<Id>)
      requires Valid(rest + multiset{charge}, promised)
      requires item.symbolId !in AllIds(decoder.rows) && Lookup(decoder.known, item.symbolId).None?
      requires 0 < |item.bytes| == item.retained <= decoder.maxBytes && item.retained <= retained
      requires 2 * item.retained <= charge.bytes
      modifies this`preOpen, this`preOpenCount, this`dropped, budget, decoder`known, decoder`knownIds, Objects()
      ensures Valid(rest + multiset{left}, promised) && left.bytes >= charge.bytes - 2 * item.retained
      ensures kept >= retained - item.retained
      ensures Elsewhere(rest + multiset{left}) == old(Elsewhere(rest + multiset{charge}))
      ensures ids == old(ids) && flows == old(flows) && Objects() == old(Objects()) && resets <= ids.Keys
      ensures decoder.rows == old(decoder.rows)
      ensures decoder.known == CommittedOne(old(decoder.known), item, lost, decoder.maxSymbols)
      ensures lost <= {item.symbolId} && (lost != {} ==> old(dropped) < dropped)
      ensures Onward(ids, old(State()), State(), now)
      ensures lost == {} ==> AllReached(RecordsOf(item.bytes, decoder.maxBytes), ids, old(State()), State(), now)
      ensures lost != {} ==>
        || DecodeSource(item.bytes, MAX_SOURCE_RECORDS, decoder.maxBytes).Err?
        || old(preOpenCount) + |RecordsOf(item.bytes, decoder.maxBytes)| > preOpenLimit
      ensures preOpenCount <= old(preOpenCount) + |RecordsOf(item.bytes, decoder.maxBytes)|
      ensures old(Truthful(x)) && item.symbolId in x && x[item.symbolId] == item.bytes ==>
        Truthful(x) && AllFed(x, decoder.maxBytes, ids, old(Views()), Views())
    {
      hide Unclaimed, Counted, Owns, Elsewhere, Views, Loads, Fed, AllFed, Truthful, InHand, Objects, DecodeSource;
      hide DataBytes, AllIds, AllSent, Onward, AllReached, CommittedOne, Lookup;
      assert Views().Keys == ids.Keys == Loads().Keys by { StoresAre(); }
      ghost var was, max := State(), decoder.maxBytes;
      AllFedNone(x, max, ids, was.views);
      OnwardNone(ids, was, now);
      left, kept, resets, lost := charge, retained, {}, {item.symbolId};
      LostOne(decoder.known, item, decoder.maxSymbols);
      var decoded := DecodeSource(item.bytes, MAX_SOURCE_RECORDS, decoder.maxBytes);
      if decoded.Err? {
        Lose(rest + multiset{charge}, was, now);
        return;
      }
      DecodedFits(item.bytes, max);
      var records, taken;
      records, left := Parcel(decoded.value.records, charge, rest);
      assert Plain(records) == RecordsOf(item.bytes, max);
      if item.symbolId in x && x[item.symbolId] == item.bytes {
        SentFrom(x, max, item.symbolId, item.bytes, records);
      }
      left, taken, resets, lost := DispatchRead(item, records, left, now, rest, promised, x);
      kept := if taken then retained - item.retained else retained;
    }

    lemma LostOne(known: seq<KnownSource>, item: Recovered, max: nat)
      ensures CommittedOne(known, item, {item.symbolId}, max) == known
    {
    }

    lemma Parting(rest: multiset<Charge>, left: Charge, less: Charge, part: Charge, others: multiset<Charge>)
      ensures rest + multiset{left} + others - multiset{left} + multiset{less} + multiset{part}
        == rest + multiset{less} + others + multiset{part}
      ensures part in rest + multiset{less} + others + multiset{part}
      ensures rest + multiset{less} + others + multiset{part} - multiset{part} == rest + multiset{less} + others
    {
      assert rest + multiset{left} + others - multiset{left} == rest + others;
    }

    /** The loop of `dispatch_recovered`: the newest symbol first. No part that it splits off is ever refused. */
    method DispatchItems(items: seq<Recovered>, first: Charge, reserved: nat, now: nat, ghost rest: multiset<Charge>,
                         ghost promised: nat, ghost x: Assignment)
      returns (resets: set<FlowReceiver>, ghost lost: set<Id>)
      requires Valid(rest + multiset{first}, promised) && 2 * ItemBytes(items) <= first.bytes
      requires ItemBytes(items) <= reserved
      requires Ripe(items, decoder.rows, decoder.maxBytes) && Optimality.Fresh(decoder.known, items)
      modifies this`preOpen, this`preOpenCount, this`dropped, budget, decoder`known, decoder`knownIds, Objects()
      ensures Valid(rest, promised) && Elsewhere(rest) == old(Elsewhere(rest + multiset{first}))
      ensures ids == old(ids) && flows == old(flows) && Objects() == old(Objects()) && resets <= ids.Keys
      ensures decoder.rows == old(decoder.rows)
      ensures decoder.known == Committed(old(decoder.known), items, lost, decoder.maxSymbols)
      ensures lost != {} ==> old(dropped) < dropped
      ensures Onward(ids, old(State()), State(), now)
      ensures ItemsReached(items, lost, decoder.maxBytes, ids, old(State()), State(), now)
      ensures forall k :: 0 <= k < |items| && items[k].symbolId in lost ==>
        || DecodeSource(items[k].bytes, MAX_SOURCE_RECORDS, decoder.maxBytes).Err?
        || preOpenLimit < old(preOpenCount) + RecordCount(items, decoder.maxBytes)
      ensures old(Truthful(x)) && RecoveredTrue(x, items) ==>
        Truthful(x) && AllFed(x, decoder.maxBytes, ids, old(Views()), Views())
    {
      hide Unclaimed, Counted, Owns, Elsewhere, Views, Loads, Fed, AllFed, Truthful, Objects, AllIds, ItemBytes;
      hide Onward, ItemsReached, AllReached, RecordsOf, Committed, CommittedOne, Lookup, DecodeSource, RecordCount;
      ghost var others, was, max, truthful := Elsewhere(rest + multiset{first}), State(), decoder.maxBytes, Truthful(x);
      assert Views().Keys == ids.Keys == Loads().Keys by { StoresAre(); }
      AllFedNone(x, max, ids, was.views);
      OnwardNone(ids, was, now);
      NoItems(items[|items|..], {}, max, ids, was, was, now);
      assert items[..|items|] == items;
      resets, lost := {}, {};
      CommittedStart(decoder.known, items, decoder.maxSymbols);
      var charge, n, retained := first, |items|, reserved;
      while n > 0
        invariant 0 <= n <= |items| && 2 * ItemBytes(items[..n]) <= charge.bytes && ItemBytes(items[..n]) <= retained
        invariant Valid(rest + multiset{charge}, promised) && Elsewhere(rest + multiset{charge}) == others
        invariant ids == old(ids) && flows == old(flows) && Objects() == old(Objects()) && resets <= ids.Keys
        invariant decoder.rows == old(decoder.rows)
        invariant decoder.known == Committed(old(decoder.known), items[n..], lost, decoder.maxSymbols)
        invariant Among(lost, items[n..]) && (lost != {} ==> was.dropped < dropped)
        invariant Onward(ids, was, State(), now) && ItemsReached(items[n..], lost, max, ids, was, State(), now)
        invariant forall k :: 0 <= k < n ==> Lookup(decoder.known, items[k].symbolId).None?
        invariant preOpenCount + RecordCount(items[..n], max) <= old(preOpenCount) + RecordCount(items, max)
        invariant forall k :: n <= k < |items| && items[k].symbolId in lost ==>
          || DecodeSource(items[k].bytes, MAX_SOURCE_RECORDS, max).Err?
          || preOpenLimit < old(preOpenCount) + RecordCount(items, max)
        invariant truthful && RecoveredTrue(x, items) ==> Truthful(x) && AllFed(x, max, ids, was.views, Views())
      {
        n := n - 1;
        ghost var before, known := State(), decoder.known;
        ItemsNext(items, n);
        RecordCountNext(items, n, max);
        var more;
        ghost var gone;
        charge, retained, more, gone := DispatchItem(items[n], charge, retained, now, rest, promised, x);
        CommittedNext(old(decoder.known), items, n, lost, gone, decoder.maxSymbols);
        OnwardCounts(ids, was, before, now);
        OnwardCounts(ids, before, State(), now);
        forall k | 0 <= k < n ensures Lookup(decoder.known, items[k].symbolId).None? {
          UnknownStays(known, items[n], gone, decoder.maxSymbols, items[k].symbolId);
        }
        ItemReachedNext(items, n, lost, gone, max, ids, was, before, State(), now);
        lost := lost + gone;
        if truthful && RecoveredTrue(x, items) {
          AllFedTwice(x, max, ids, was.views, before.views, Views());
        }
        resets := resets + more;
      }
      assert items[0..] == items;
      Lone(rest, charge, charge);
      Discard(charge, rest + multiset{charge});
    }

    /** Only these symbols. */
    ghost predicate Among(lost: set<Id>, items: seq<Recovered>) {
      forall id :: id in lost ==> exists k :: 0 <= k < |items| && items[k].symbolId == id
    }

    lemma CommittedStart(known: seq<KnownSource>, items: seq<Recovered>, max: nat)
      ensures Committed(known, items[|items|..], {}, max) == known
    {
    }

    lemma CommittedNext(known: seq<KnownSource>, items: seq<Recovered>, n: nat, lost: set<Id>, gone: set<Id>, max: nat)
      requires n < |items| && Among(lost, items[n + 1..]) && gone <= {items[n].symbolId}
      requires forall i, j :: 0 <= i < j < |items| ==> items[i].symbolId != items[j].symbolId
      ensures Among(lost + gone, items[n..])
      ensures Committed(known, items[n..], lost + gone, max)
        == CommittedOne(Committed(known, items[n + 1..], lost, max), items[n], gone, max)
    {
      var item, tail := items[n], items[n + 1..];
      assert items[n..] == [item] + tail;
      CommittedFront(known, item, tail, lost + gone, max);
      forall k | 0 <= k < |tail| ensures tail[k].symbolId in lost + gone <==> tail[k].symbolId in lost {
        assert tail[k] == items[n + 1 + k];
      }
      CommittedSame(known, tail, lost + gone, lost, max);
      assert item.symbolId !in lost;
      forall id | id in lost + gone ensures exists k :: 0 <= k < |items[n..]| && items[n..][k].symbolId == id {
        if id in lost {
          var k :| 0 <= k < |tail| && tail[k].symbolId == id;
          assert items[n..][k + 1] == tail[k];
        } else {
          assert items[n..][0] == item;
        }
      }
    }

    /** src/recovery.rs, `dispatch_recovered`. */
    method DispatchRecovered(batch: Batch, now: nat, ghost rest: multiset<Charge>, ghost promised: nat,
                             ghost x: Assignment)
      returns (resets: set<FlowReceiver>, ghost lost: set<Id>)
      requires Valid(rest + multiset{batch.charge}, promised) && Paid(batch, decoder.rows, decoder.maxBytes)
      requires Optimality.Fresh(decoder.known, batch.items)
      modifies this`preOpen, this`preOpenCount, this`dropped, budget, decoder`known, decoder`knownIds, Objects()
      ensures Valid(rest, promised) && Elsewhere(rest) == old(Elsewhere(rest + multiset{batch.charge}))
      ensures ids == old(ids) && flows == old(flows) && Objects() == old(Objects()) && resets <= ids.Keys
      ensures decoder.rows == old(decoder.rows)
      ensures decoder.known == Committed(old(decoder.known), batch.items, lost, decoder.maxSymbols)
      ensures lost != {} ==> old(dropped) < dropped
      ensures Onward(ids, old(State()), State(), now)
      ensures ItemsReached(batch.items, lost, decoder.maxBytes, ids, old(State()), State(), now)
      ensures LossExcused(batch.items, lost, Margin(0, preOpenLimit - old(preOpenCount), 0, budget.used), Bounds())
      ensures old(Truthful(x)) && RecoveredTrue(x, batch.items) ==>
        Truthful(x) && AllFed(x, decoder.maxBytes, ids, old(Views()), Views())
    {
      hide Unclaimed, Counted, Owns, Elsewhere, Views, Loads, Fed, AllFed, Truthful, Objects, AllIds, BatchBytes;
      hide ItemBytes, Onward, ItemsReached, AllReached, RecoveredTrue, Optimality.Fresh, LossExcused, RecordCount;
      hide DecodeSource, DispatchBytes, Paid, Committed, Ripe;
      resets, lost := {}, {};
      ghost var was := State();
      assert Views().Keys == ids.Keys == Loads().Keys by { StoresAre(); }
      AllFedNone(x, decoder.maxBytes, ids, was.views);
      OnwardNone(ids, was, now);
      OwnsBudget(rest + multiset{batch.charge});
      var items := batch.items;
      Lone(rest, batch.charge, batch.charge);
      if items == [] {
        NoItems(items, lost, decoder.maxBytes, ids, was, was, now);
        CommittedNone(decoder.known, items, lost, decoder.maxSymbols);
        Discard(batch.charge, rest + multiset{batch.charge});
        NothingLost(items, Margin(0, preOpenLimit - preOpenCount, 0, budget.used), Bounds());
        return;
      }
      ItemsPaid(batch, decoder.rows, decoder.maxBytes);
      var ok, charge := Enlarge(batch.charge, batch.retained + DispatchBytes(items),
                                rest + multiset{batch.charge});
      Lone(rest, batch.charge, charge);
      if !ok {
        lost := LoseBatch(batch, now, rest, promised, was);
        return;
      }
      ghost var places := preOpenLimit - preOpenCount;
      EnoughToDispatch(batch, charge, decoder.rows, decoder.maxBytes);
      resets, lost := DispatchItems(items, charge, batch.retained, now, rest, promised, x);
      PlacesExcuse(items, lost, Margin(0, places, 0, budget.used), Bounds());
    }

    /** There is not the memory to dispatch a batch: all of it is lost. */
    method LoseBatch(batch: Batch, now: nat, ghost rest: multiset<Charge>, ghost promised: nat,
                     ghost was: Progress<FlowReceiver>)
      returns (ghost lost: set<Id>)
      requires Valid(rest + multiset{batch.charge}, promised) && Paid(batch, decoder.rows, decoder.maxBytes)
      requires budget.used + DispatchBytes(batch.items) > budget.limit && Onward(ids, was, State(), now)
      modifies this`dropped, budget
      ensures Valid(rest, promised) && Elsewhere(rest) == old(Elsewhere(rest + multiset{batch.charge}))
      ensures decoder.known == Committed(decoder.known, batch.items, lost, decoder.maxSymbols)
      ensures was.dropped < dropped && Views() == old(Views()) && Loads() == old(Loads())
      ensures Onward(ids, was, State(), now)
      ensures ItemsReached(batch.items, lost, decoder.maxBytes, ids, was, State(), now)
      ensures LossExcused(batch.items, lost, Margin(0, preOpenLimit - preOpenCount, 0, budget.used), Bounds())
    {
      hide Unclaimed, Counted, Owns, Elsewhere, Views, Loads, Objects, Onward, ItemsReached, LossExcused;
      hide DispatchBytes, Committed, RecordCount, DecodeSource, BatchBytes, Ripe;
      OwnsBudget(rest + multiset{batch.charge});
      Lone(rest, batch.charge, batch.charge);
      Lose(rest + multiset{batch.charge}, was, now);
      lost := set k | 0 <= k < |batch.items| :: batch.items[k].symbolId;
      CommittedNone(decoder.known, batch.items, lost, decoder.maxSymbols);
      Discard(batch.charge, rest + multiset{batch.charge});
      AllLost(batch, lost, decoder.rows, Margin(0, preOpenLimit - preOpenCount, 0, budget.used), ids, was, State(),
              now, Bounds());
    }

    lemma EnoughToDispatch(batch: Batch, charge: Charge, rows: seq<Row>, max: nat)
      requires Paid(batch, rows, max) && batch.retained + DispatchBytes(batch.items) <= charge.bytes
      ensures 2 * ItemBytes(batch.items) <= charge.bytes
    {
      ItemsPaid(batch, rows, max);
    }

    lemma AllLost(batch: Batch, lost: set<Id>, rows: seq<Row>, m: Margin, ids: map<FlowReceiver, nat>,
                  was: Progress<FlowReceiver>, now: Progress<FlowReceiver>, clock: nat, l: Limits)
      requires lost == set k | 0 <= k < |batch.items| :: batch.items[k].symbolId
      requires Paid(batch, rows, l.bytes) && m.used + m.extra + batch.retained + DispatchBytes(batch.items) > l.memory
      ensures ItemsReached(batch.items, lost, l.bytes, ids, was, now, clock)
      ensures LossExcused(batch.items, lost, m, l)
    {
      hide DispatchBytes, BatchBytes, DecodeSource, RecordCount, AllReached, RecordsOf, Ripe;
    }

    lemma PlacesExcuse(items: seq<Recovered>, lost: set<Id>, m: Margin, l: Limits)
      requires forall k :: 0 <= k < |items| && items[k].symbolId in lost ==>
        || DecodeSource(items[k].bytes, MAX_SOURCE_RECORDS, l.bytes).Err?
        || m.places < m.direct + RecordCount(items, l.bytes)
      ensures LossExcused(items, lost, m, l)
    {
    }

    lemma Lone(rest: multiset<Charge>, a: Charge, b: Charge)
      ensures a in rest + multiset{a}
      ensures rest + multiset{a} - multiset{a} == rest
      ensures rest + multiset{a} - multiset{a} + multiset{b} == rest + multiset{b}
    {
    }

    // ----- datagrams

    /** The decoder takes a new source; then what arrived and what it recovered are handed on. */
    method AcceptNew(id: Id, datagram: Bytes, records: seq<PendingRecord>, now: nat, oldestUnique: bool,
                     ghost rest: multiset<Charge>, ghost promised: nat, ghost x: Assignment)
      returns (resets: set<FlowReceiver>, ghost r: Report)
      requires Valid(rest + InHand(records), promised + Unopened(records)) && AllCharged(records) && Routed(records)
      modifies this`preOpen, this`preOpenCount, this`dropped, budget, decoder, Objects()
      ensures Valid(rest, promised) && Elsewhere(rest) == old(Elsewhere(rest + InHand(records)))
      ensures ids == old(ids) && flows == old(flows) && Objects() == old(Objects()) && resets <= ids.Keys
      ensures !r.closed && Handled(SourceEvent(id, datagram, oldestUnique, r.lost), old(Now(decoder)), Now(decoder),
                                   r.items, r.refused, old(dropped) < dropped, Bounds())
      ensures Onward(ids, old(State()), State(), now)
      ensures ItemsReached(r.items, r.lost, decoder.maxBytes, ids, old(State()), State(), now)
      ensures LossExcused(r.items, r.lost, Margin(0, preOpenLimit - old(preOpenCount), 0, budget.used), Bounds())
      ensures r.refused || AllPlaced(records, ids, old(State()), State(), now)
      ensures old(Truthful(x)) && id in x && x[id] == datagram && AllSent(x, decoder.maxBytes, records) ==>
        Truthful(x) && AllFed(x, decoder.maxBytes, ids, old(Views()), Views())
      ensures
        (old(Truthful(x)) && id in x && x[id] == datagram
         && old(SourceRoom(|datagram|, Now(decoder), 0, Bounds()))) ==>
        !r.refused
    {
      hide Unclaimed, Counted, Owns, Elsewhere, Views, Loads, Fed, AllFed, Truthful, InHand, Unopened, Objects, Paid;
      hide AllSent, RecoveredTrue, Onward, AllReached, AllPlaced, ItemsReached, LossExcused, Optimality.Fresh, Steady;
      hide Handled, Adopts, Accepts, Committed, SourceRoom, MayRefuse;
      ghost var was, truthful, start := State(), Truthful(x), Now(decoder);
      assert Views().Keys == ids.Keys == Loads().Keys by { StoresAre(); }
      AllFedNone(x, decoder.maxBytes, ids, was.views);
      OnwardNone(ids, was, now);
      resets, r := {}, Report([], {}, false, false);
      OwnsSteady(rest + InHand(records));
      var added := AddSource(id, datagram, oldestUnique, rest + InHand(records));
      if added.Err? {
        if SourceRoom(|datagram|, start, 0, Bounds()) {
          RoomSuffices(id, datagram, oldestUnique, start, added.error, Bounds());
        }
        Release(records, rest, promised);
        Lose(rest, was, now);
        r := Report([], {}, false, true);
        NothingLost(r.items, Margin(0, preOpenLimit - old(preOpenCount), 0, budget.used), Bounds());
        IgnoredIsHandled(SourceEvent(id, datagram, oldestUnique, {}), start, Now(decoder), Bounds());
        NoItems(r.items, r.lost, decoder.maxBytes, ids, was, State(), now);
        return;
      }
      var batch := added.value;
      ghost var added' := Now(decoder);
      AdoptsFresh(SourceEvent(id, datagram, oldestUnique, {}), start, added', batch.items, Bounds());
      Takes(rest, InHand(records), multiset{batch.charge});
      Reassociate(rest, InHand(records), multiset{batch.charge});
      var direct;
      ghost var errors;
      direct, errors := Dispatch(records, now, rest + multiset{batch.charge}, promised, x);
      ghost var middle, count := State(), preOpenCount;
      ghost var lost;
      var recovered;
      recovered, lost := DispatchRecovered(batch, now, rest, promised, x);
      r := Report(batch.items, lost, false, false);
      AdoptsAnyway(SourceEvent(id, datagram, oldestUnique, {}), start, added', batch.items, Bounds(), lost);
      OnwardCounts(ids, was, middle, now);
      ExcusedFrom(batch.items, lost, Margin(0, preOpenLimit - count, 0, budget.used),
                  Margin(0, preOpenLimit - old(preOpenCount), 0, budget.used), Bounds());
      AcceptedIsHandled(SourceEvent(id, datagram, oldestUnique, lost), start, added', Now(decoder), batch.items,
                        old(dropped) < dropped, Bounds());
      ItemsReachedFrom(batch.items, lost, decoder.maxBytes, ids, was, middle, State(), now);
      if truthful && id in x && x[id] == datagram && AllSent(x, decoder.maxBytes, records) {
        AllFedTwice(x, decoder.maxBytes, ids, was.views, middle.views, Views());
      }
      AllPlacedStays(records, ids, was, middle, State(), now);
      OnwardTwice(ids, was, middle, State(), now);
      resets := direct + recovered;
    }

    /** src/recovery.rs, the second half of `accept_source`: decode, then hand on what arrived and what it recovered. */
    method AcceptReserved(id: Id, datagram: Bytes, records: seq<PendingRecord>, now: nat, oldestUnique: bool,
                          ghost rest: multiset<Charge>, ghost promised: nat, ghost x: Assignment)
      returns (resets: set<FlowReceiver>, ghost r: Report)
      requires Valid(rest + InHand(records), promised + Unopened(records)) && AllCharged(records) && Routed(records)
      modifies this`preOpen, this`preOpenCount, this`dropped, budget, decoder, Objects()
      ensures Valid(rest, promised) && Elsewhere(rest) == old(Elsewhere(rest + InHand(records)))
      ensures ids == old(ids) && flows == old(flows) && Objects() == old(Objects()) && resets <= ids.Keys
      ensures !r.closed && Handled(SourceEvent(id, datagram, oldestUnique, r.lost), old(Now(decoder)), Now(decoder),
                                   r.items, r.refused, old(dropped) < dropped, Bounds())
      ensures Onward(ids, old(State()), State(), now)
      ensures ItemsReached(r.items, r.lost, decoder.maxBytes, ids, old(State()), State(), now)
      ensures LossExcused(r.items, r.lost, Margin(0, preOpenLimit - old(preOpenCount), 0, budget.used), Bounds())
      ensures
        || r.refused || old(Lookup(decoder.known, id)) == Some(datagram)
        || AllPlaced(records, ids, old(State()), State(), now)
      ensures old(Truthful(x)) && id in x && x[id] == datagram && AllSent(x, decoder.maxBytes, records) ==>
        Truthful(x) && AllFed(x, decoder.maxBytes, ids, old(Views()), Views())
      ensures
        (old(Truthful(x)) && id in x && x[id] == datagram
         && old(SourceRoom(|datagram|, Now(decoder), 0, Bounds()))) ==>
        !r.refused
    {
      hide Unclaimed, Counted, Owns, Elsewhere, Views, Loads, Fed, AllFed, Truthful, InHand, Unopened, Objects;
      hide Lookup, AllSent, Onward, AllReached, AllPlaced, LossExcused, ItemsReached, Handled, Accepts, SourceRoom;
      ghost var was, start := State(), Now(decoder);
      assert Views().Keys == ids.Keys == Loads().Keys by { StoresAre(); }
      AllFedNone(x, decoder.maxBytes, ids, was.views);
      OnwardNone(ids, was, now);
      KnownTruth(x, id);
      resets, r := {}, Report([], {}, false, false);
      // `source_status`: a duplicate is ignored and a contradiction dropped.
      var existing := Lookup(decoder.known, id);
      if existing.None? {
        resets, r := AcceptNew(id, datagram, records, now, oldestUnique, rest, promised, x);
        return;
      }
      Release(records, rest, promised);
      if existing.value != datagram {
        Lose(rest, was, now);
        r := Report([], {}, false, true);
        IgnoredIsHandled(SourceEvent(id, datagram, oldestUnique, {}), start, Now(decoder), Bounds());
      } else {
        RepeatIsHandled(id, datagram, oldestUnique, start, Now(decoder), false, Bounds());
      }
      NothingLost(r.items, Margin(0, preOpenLimit - old(preOpenCount), 0, budget.used), Bounds());
      NoItems(r.items, r.lost, decoder.maxBytes, ids, was, State(), now);
    }

    // Known sources are the sender's, so a genuine source never contradicts one.
    lemma KnownTruth(x: Assignment, id: Id)
      ensures Truthful(x) && id in x ==> Lookup(decoder.known, id) in {None, Some(x[id])}
    {
      hide SentIn, Lookup;
      if Truthful(x) && id in x {
        GenuineFits(x, decoder.rows, decoder.known, decoder.maxBytes, id);
      }
    }

    /** src/recovery.rs, `accept_source`. */
    method AcceptSource(id: Id, datagram: Bytes, records: seq<PendingRecord>, now: nat, oldestUnique: bool,
                        ghost rest: multiset<Charge>, ghost promised: nat, ghost x: Assignment)
      returns (resets: set<FlowReceiver>, ghost r: Report)
      requires Valid(rest + InHand(records), promised)
      requires forall k :: 0 <= k < |records| ==>
        if records[k].charge.Some? then records[k].Charged() else |records[k].record.data| <= records[k].retained
      modifies this`preOpen, this`preOpenCount, this`dropped, budget, decoder, Objects()
      ensures Valid(rest, promised) && Elsewhere(rest) == old(Elsewhere(rest + InHand(records)))
      ensures ids == old(ids) && flows == old(flows) && Objects() == old(Objects()) && resets <= ids.Keys
      ensures !r.closed && Handled(SourceEvent(id, datagram, oldestUnique, r.lost), old(Now(decoder)), Now(decoder),
                                   r.items, r.refused, old(dropped) < dropped, Bounds())
      ensures Onward(ids, old(State()), State(), now)
      ensures ItemsReached(r.items, r.lost, decoder.maxBytes, ids, old(State()), State(), now)
      ensures LossExcused(r.items, r.lost, Margin(|records|, preOpenLimit - old(preOpenCount), 0, budget.used),
                          Bounds())
      ensures
        || r.refused || old(Lookup(decoder.known, id)) == Some(datagram)
        || AllReached(Plain(records), ids, old(State()), State(), now)
      ensures old(Truthful(x)) && id in x && x[id] == datagram && AllSent(x, decoder.maxBytes, records) ==>
        Truthful(x) && AllFed(x, decoder.maxBytes, ids, old(Views()), Views())
      ensures
        (old(Truthful(x)) && id in x && x[id] == datagram && old(preOpenCount) + |records| <= preOpenLimit
         && old(SourceRoom(|datagram|, Now(decoder), Due(records), Bounds()))) ==>
        !r.refused
    {
      hide Unclaimed, Counted, Owns, Elsewhere, Views, Loads, Fed, AllFed, Truthful, InHand, Unopened, Owing, Objects;
      hide Lookup, SentIn, Unexpired, Onward, AllReached, LossExcused, Handled, ItemsReached, SourceRoom, Due;
      hide Accepts;
      ghost var was, start := State(), Now(decoder);
      assert Views().Keys == ids.Keys == Loads().Keys by { StoresAre(); }
      AllFedNone(x, decoder.maxBytes, ids, was.views);
      OnwardNone(ids, was, now);
      KnownTruth(x, id);
      resets, r := {}, Report([], {}, false, false);
      var existing := Lookup(decoder.known, id);
      if existing.None? {
        resets, r := ReserveAndAccept(id, datagram, records, now, oldestUnique, rest, promised, x);
        return;
      }
      DropAll(records, rest);
      if existing.value != datagram {
        Lose(rest, was, now);
        r := Report([], {}, false, true);
        IgnoredIsHandled(SourceEvent(id, datagram, oldestUnique, {}), start, Now(decoder), Bounds());
      } else {
        RepeatIsHandled(id, datagram, oldestUnique, start, Now(decoder), false, Bounds());
      }
      NothingLost(r.items, Margin(|records|, preOpenLimit - old(preOpenCount), 0, budget.used), Bounds());
      NoItems(r.items, r.lost, decoder.maxBytes, ids, was, State(), now);
    }

    /** The rest of `accept_source`, for a source that is not known. */
    method ReserveAndAccept(id: Id, datagram: Bytes, records: seq<PendingRecord>, now: nat, oldestUnique: bool,
                            ghost rest: multiset<Charge>, ghost promised: nat, ghost x: Assignment)
      returns (resets: set<FlowReceiver>, ghost r: Report)
      requires Valid(rest + InHand(records), promised) && Lookup(decoder.known, id).None?
      requires forall k :: 0 <= k < |records| ==>
        if records[k].charge.Some? then records[k].Charged() else |records[k].record.data| <= records[k].retained
      modifies this`preOpen, this`preOpenCount, this`dropped, budget, decoder, Objects()
      ensures Valid(rest, promised) && Elsewhere(rest) == old(Elsewhere(rest + InHand(records)))
      ensures ids == old(ids) && flows == old(flows) && Objects() == old(Objects()) && resets <= ids.Keys
      ensures !r.closed && Handled(SourceEvent(id, datagram, oldestUnique, r.lost), old(Now(decoder)), Now(decoder),
                                   r.items, r.refused, old(dropped) < dropped, Bounds())
      ensures Onward(ids, old(State()), State(), now)
      ensures ItemsReached(r.items, r.lost, decoder.maxBytes, ids, old(State()), State(), now)
      ensures LossExcused(r.items, r.lost, Margin(|records|, preOpenLimit - old(preOpenCount), 0, budget.used),
                          Bounds())
      ensures r.refused || AllReached(Plain(records), ids, old(State()), State(), now)
      ensures old(Truthful(x)) && id in x && x[id] == datagram && AllSent(x, decoder.maxBytes, records) ==>
        Truthful(x) && AllFed(x, decoder.maxBytes, ids, old(Views()), Views())
      ensures
        (old(Truthful(x)) && id in x && x[id] == datagram && old(preOpenCount) + |records| <= preOpenLimit
         && old(SourceRoom(|datagram|, Now(decoder), Due(records), Bounds()))) ==>
        !r.refused
    {
      hide Unclaimed, Counted, Owns, Elsewhere, Views, Loads, Fed, AllFed, Truthful, InHand, Unopened, Owing, Objects;
      hide Lookup, SentIn, Unexpired, Onward, AllReached, AllPlaced, Sought, LossExcused, Handled, ItemsReached;
      hide SourceRoom, Due, Accepts;
      ghost var was, start := State(), Now(decoder);
      assert Views().Keys == ids.Keys == Loads().Keys by { StoresAre(); }
      AllFedNone(x, decoder.maxBytes, ids, was.views);
      OnwardNone(ids, was, now);
      resets, r := {}, Report([], {}, false, false);
      OwnsBudget(rest + InHand(records));
      var ok, out := Reserve(records, now, rest, promised);
      assert Plain(out) == Plain(records);
      OnwardCounts(ids, was, State(), now);
      if SourceRoom(|datagram|, start, Due(records), Bounds()) {
        RoomIs(|datagram|, start, Due(records), Bounds());
        if ok { RoomStays(|datagram|, start, Due(records), Now(decoder), 0, Bounds()); }
      }
      if !ok {
        DropAll(out, rest);
        Lose(rest, was, now);
        r := Report([], {}, false, true);
        NothingLost(r.items, Margin(|records|, preOpenLimit - old(preOpenCount), 0, budget.used), Bounds());
        IgnoredIsHandled(SourceEvent(id, datagram, oldestUnique, {}), start, Now(decoder), Bounds());
        NoItems(r.items, r.lost, decoder.maxBytes, ids, was, State(), now);
        return;
      }
      ghost var middle, middle', count := State(), Now(decoder), preOpenCount;
      resets, r := AcceptReserved(id, datagram, out, now, oldestUnique, rest, promised, x);
      OnwardTwice(ids, was, middle, State(), now);
      ExcusedFrom(r.items, r.lost, Margin(0, preOpenLimit - count, 0, budget.used),
                  Margin(|records|, preOpenLimit - old(preOpenCount), 0, budget.used), Bounds());
      HandledFrom(SourceEvent(id, datagram, oldestUnique, r.lost), start, middle', Now(decoder), Now(decoder), r.items,
                  r.refused, middle.dropped < dropped, was.dropped < dropped, Bounds());
      ItemsReachedFrom(r.items, r.lost, decoder.maxBytes, ids, was, middle, State(), now);
      if !r.refused {
        PlacedIsReached(out, ids, middle, State(), now);
        AllReachedFrom(Plain(out), ids, was, middle, State(), now);
      }
    }

    ghost predicate Repeats(datagram: Bytes)
      reads decoder
    {
      RepeatsIn(decoder.known, datagram, decoder.maxBytes)
    }

    /** src/recovery.rs, `receive_source`. */
    method ReceiveSource(datagram: Bytes, now: nat, oldestUnique: bool, ghost rest: multiset<Charge>,
                         ghost promised: nat, ghost x: Assignment)
      returns (resets: set<FlowReceiver>, ghost r: Report)
      requires Valid(rest, promised)
      modifies this`preOpen, this`preOpenCount, this`dropped, budget, decoder, Objects()
      ensures Valid(rest, promised) && Elsewhere(rest) == old(Elsewhere(rest))
      ensures ids == old(ids) && flows == old(flows) && Objects() == old(Objects()) && resets <= ids.Keys
      ensures !r.closed
      ensures SourceAnswered(datagram, oldestUnique, old(Now(decoder)), Now(decoder), r, old(dropped) < dropped,
                             Bounds())
      ensures Onward(ids, old(State()), State(), now)
      ensures ItemsReached(r.items, r.lost, decoder.maxBytes, ids, old(State()), State(), now)
      ensures var n := |RecordsOf(datagram, decoder.maxBytes)|;
        LossExcused(r.items, r.lost, Margin(n, preOpenLimit - old(preOpenCount),
                                            TransitBytes(n, |datagram|, decoder.maxBytes), budget.used), Bounds())
      ensures
        || r.refused || old(Repeats(datagram))
        || AllReached(RecordsOf(datagram, decoder.maxBytes), ids, old(State()), State(), now)
      ensures old(Truthful(x)) && GenuineDatagram(x, decoder.maxBytes, datagram) ==>
        Truthful(x) && AllFed(x, decoder.maxBytes, ids, old(Views()), Views())
      ensures var source := DecodeSource(datagram, MAX_SOURCE_RECORDS, decoder.maxBytes);
        (source.Ok? && source.value.symbolId < U32 && old(Truthful(x)) && GenuineDatagram(x, decoder.maxBytes, datagram)
         && old(SourceAffordable(source.value, |datagram|, Now(decoder), preOpenLimit - preOpenCount, Bounds()))) ==>
        !r.refused
    {
      hide Unclaimed, Counted, Owns, Elsewhere, Views, Loads, Fed, AllFed, Truthful, InHand, Objects, SentIn, AllSent;
      hide DecodeSource, DecodeRepair, DataBytes, GenuineRepair, Onward, AllReached, LossExcused, Lookup, Handled;
      hide ItemsReached, Accepts, SourceRoom, Due;
      ghost var was, max := State(), decoder.maxBytes;
      assert Views().Keys == ids.Keys == Loads().Keys by { StoresAre(); }
      AllFedNone(x, max, ids, was.views);
      OnwardNone(ids, was, now);
      resets, r := {}, Report([], {}, false, false);
      var decoded := DecodeSource(datagram, MAX_SOURCE_RECORDS, decoder.maxBytes);
      if decoded.Err? {
        Lose(rest, was, now);
        r := Report([], {}, false, true);
        NothingLost(r.items, Margin(|RecordsOf(datagram, max)|, preOpenLimit - old(preOpenCount),
                                    TransitBytes(|RecordsOf(datagram, max)|, |datagram|, max), budget.used), Bounds());
        NoItems(r.items, r.lost, max, ids, was, State(), now);
        return;
      }
      DecodedFits(datagram, max);
      var source := decoded.value;
      DecodedId(datagram, max);
      if |source.records| == 1 {
        var pending := [PendingRecord(None, source.records[0], decoder.maxBytes + REPAIR_HEADER, None)];
        Uncharged(rest, pending[0], source.records);
        assert Plain(pending) == RecordsOf(datagram, max);
        if source.symbolId in x && x[source.symbolId] == datagram {
          SentFrom(x, max, source.symbolId, datagram, pending);
        }
        OneDue(pending[0]);
        resets, r := AcceptSource(source.symbolId, datagram, pending, now, oldestUnique, rest, promised, x);
        ExcusedFrom(r.items, r.lost, Margin(1, preOpenLimit - old(preOpenCount), 0, budget.used),
                    Margin(1, preOpenLimit - old(preOpenCount), TransitBytes(1, |datagram|, max), budget.used),
                    Bounds());
      } else {
        resets, r := ReceiveMany(source, datagram, now, oldestUnique, rest, promised, x);
      }
    }

    /** The rest of `receive_source`, for a datagram with several records. */
    method ReceiveMany(source: Source, datagram: Bytes, now: nat, oldestUnique: bool, ghost rest: multiset<Charge>,
                       ghost promised: nat, ghost x: Assignment)
      returns (resets: set<FlowReceiver>, ghost r: Report)
      requires Valid(rest, promised) && source.symbolId < U32
      requires DecodeSource(datagram, MAX_SOURCE_RECORDS, decoder.maxBytes) == Ok(source)
      modifies this`preOpen, this`preOpenCount, this`dropped, budget, decoder, Objects()
      ensures Valid(rest, promised) && Elsewhere(rest) == old(Elsewhere(rest))
      ensures ids == old(ids) && flows == old(flows) && Objects() == old(Objects()) && resets <= ids.Keys
      ensures !r.closed && Handled(SourceEvent(source.symbolId, datagram, oldestUnique, r.lost), old(Now(decoder)),
                                   Now(decoder), r.items, r.refused, old(dropped) < dropped, Bounds())
      ensures Onward(ids, old(State()), State(), now)
      ensures ItemsReached(r.items, r.lost, decoder.maxBytes, ids, old(State()), State(), now)
      ensures LossExcused(r.items, r.lost,
                          Margin(|source.records|, preOpenLimit - old(preOpenCount),
                                 |source.records| * SIZE_PENDING + |datagram|, budget.used), Bounds())
      ensures
        || r.refused || old(Lookup(decoder.known, source.symbolId)) == Some(datagram)
        || AllReached(source.records, ids, old(State()), State(), now)
      ensures old(Truthful(x)) && source.symbolId in x && x[source.symbolId] == datagram ==>
        Truthful(x) && AllFed(x, decoder.maxBytes, ids, old(Views()), Views())
      ensures
        (old(Truthful(x)) && source.symbolId in x && x[source.symbolId] == datagram
         && old(preOpenCount) + |source.records| <= preOpenLimit
         && old(SourceRoom(|datagram|, Now(decoder), |source.records| * SIZE_PENDING + |datagram|, Bounds()))) ==>
        !r.refused
    {
      hide Unclaimed, Counted, Owns, Elsewhere, Views, Loads, Fed, AllFed, Truthful, InHand, Objects, AllSent;
      hide DecodeSource, DataBytes, Onward, AllReached, Lookup, LossExcused, Handled, ItemsReached, Accepts;
      hide SourceRoom, Due;
      ghost var was, max, start := State(), decoder.maxBytes, Now(decoder);
      OwnsBudget(rest);
      assert Views().Keys == ids.Keys == Loads().Keys by { StoresAre(); }
      AllFedNone(x, max, ids, was.views);
      OnwardNone(ids, was, now);
      DecodedFits(datagram, max);
      resets, r := {}, Report([], {}, false, false);
      var front := |source.records| * SIZE_PENDING + |datagram|;
      if SourceRoom(|datagram|, start, front, Bounds()) {
        RoomIs(|datagram|, start, front, Bounds());
      }
      var drawn := Draw(front, rest);
      if drawn.None? {
        Lose(rest, was, now);
        r := Report([], {}, false, true);
        NothingLost(r.items, Margin(|source.records|, preOpenLimit - old(preOpenCount), front, budget.used), Bounds());
        IgnoredIsHandled(SourceEvent(source.symbolId, datagram, oldestUnique, {}), start, Now(decoder), Bounds());
        NoItems(r.items, r.lost, max, ids, was, State(), now);
        return;
      }
      ghost var before := Now(decoder);
      if SourceRoom(|datagram|, start, front, Bounds()) {
        RoomStays(|datagram|, start, front, before, 0, Bounds());
      }
      resets, r := ReceiveDrawn(source, datagram, drawn.value, now, oldestUnique, rest, promised, x);
      ghost var counted := was.dropped < dropped;
      HandledFrom(SourceEvent(source.symbolId, datagram, oldestUnique, r.lost), start, before, Now(decoder),
                  Now(decoder), r.items, r.refused, counted, counted, Bounds());
    }

    /** The rest of it, with a charge for all the records. */
    method ReceiveDrawn(source: Source, datagram: Bytes, charge: Charge, now: nat, oldestUnique: bool,
                        ghost rest: multiset<Charge>, ghost promised: nat, ghost x: Assignment)
      returns (resets: set<FlowReceiver>, ghost r: Report)
      requires Valid(rest + multiset{charge}, promised) && source.symbolId < U32 && |datagram| <= charge.bytes
      requires DecodeSource(datagram, MAX_SOURCE_RECORDS, decoder.maxBytes) == Ok(source)
      modifies this`preOpen, this`preOpenCount, this`dropped, budget, decoder, Objects()
      ensures Valid(rest, promised) && Elsewhere(rest) == old(Elsewhere(rest + multiset{charge}))
      ensures ids == old(ids) && flows == old(flows) && Objects() == old(Objects()) && resets <= ids.Keys
      ensures !r.closed && Handled(SourceEvent(source.symbolId, datagram, oldestUnique, r.lost), old(Now(decoder)),
                                   Now(decoder), r.items, r.refused, old(dropped) < dropped, Bounds())
      ensures Onward(ids, old(State()), State(), now)
      ensures ItemsReached(r.items, r.lost, decoder.maxBytes, ids, old(State()), State(), now)
      ensures LossExcused(r.items, r.lost,
                          Margin(|source.records|, preOpenLimit - old(preOpenCount), charge.bytes, budget.used),
                          Bounds())
      ensures
        || r.refused || old(Lookup(decoder.known, source.symbolId)) == Some(datagram)
        || AllReached(source.records, ids, old(State()), State(), now)
      ensures old(Truthful(x)) && source.symbolId in x && x[source.symbolId] == datagram ==>
        Truthful(x) && AllFed(x, decoder.maxBytes, ids, old(Views()), Views())
      ensures
        (old(Truthful(x)) && source.symbolId in x && x[source.symbolId] == datagram
         && old(preOpenCount) + |source.records| <= preOpenLimit
         && old(SourceRoom(|datagram|, Now(decoder), 0, Bounds()))) ==>
        !r.refused
    {
      hide Unclaimed, Counted, Owns, Elsewhere, Views, Loads, Fed, AllFed, Truthful, InHand, Objects, AllSent;
      hide DecodeSource, DataBytes, Onward, AllReached, Lookup, LossExcused, Handled, ItemsReached, Accepts;
      hide SourceRoom, Due;
      ghost var was, max, start := State(), decoder.maxBytes, Now(decoder);
      DecodedFits(datagram, max);
      var pending, left := Parcel(source.records, charge, rest);
      assert Plain(pending) == source.records;
      if source.symbolId in x && x[source.symbolId] == datagram {
        SentFrom(x, max, source.symbolId, datagram, pending);
      }
      NothingDue(pending);
      resets, r := AcceptSource(source.symbolId, datagram, pending, now, oldestUnique, rest + multiset{left}, promised,
                                x);
      ghost var counted, accepted := was.dropped < dropped, Now(decoder);
      Lone(rest, left, left);
      ghost var used, places := budget.used, preOpenLimit - old(preOpenCount);
      Discard(left, rest + multiset{left});
      ExcusedFrom(r.items, r.lost, Margin(|source.records|, places, 0, used),
                  Margin(|source.records|, places, charge.bytes, budget.used), Bounds());
      HandledFrom(SourceEvent(source.symbolId, datagram, oldestUnique, r.lost), start, start, accepted, Now(decoder),
                  r.items, r.refused, counted, counted, Bounds());
    }

    lemma OneDue(r: PendingRecord)
      requires r.charge.None?
      ensures Due([r]) == r.retained
    {
      assert [r][1..] == [];
    }

    lemma Uncharged(rest: multiset<Charge>, r: PendingRecord, records: seq<Record>)
      requires r.charge.None?
      ensures rest + InHand([r]) == rest
      ensures |records| == 1 ==> DataBytes(records) == |records[0].data|
    {
      InHandOne(r);
    }

    /**
     * src/recovery.rs, `receive`. Whatever arrives, nothing is gained or lost but what was sent and what it costs: each
     * of its records and of those it recovered reached the registered flow of its stream, which may only have refused
     * it for a reason, or waits if there is none. Otherwise the datagram was a repeat, or was refused as a whole and
     * counted, or was a repair for which the decoder had no row left; and a recovered symbol may be lost for a reason.
     */
    method Receive(a: Arrival, ghost rest: multiset<Charge>, ghost promised: nat, ghost x: Assignment)
      returns (resets: set<FlowReceiver>, closed: bool, ghost r: Report)
      requires Valid(rest, promised)
      modifies this`preOpen, this`preOpenCount, this`dropped, budget, decoder, Objects()
      ensures Valid(rest, promised) && Elsewhere(rest) == old(Elsewhere(rest))
      ensures ids == old(ids) && flows == old(flows) && Objects() == old(Objects()) && resets <= ids.Keys
      ensures r.closed == closed && Served(a, ids, old(Snap()), Snap(), r, Bounds())
      ensures old(Truthful(x)) && GenuineDatagram(x, decoder.maxBytes, a.datagram) ==>
        Truthful(x) && AllFed(x, decoder.maxBytes, ids, old(Views()), Views())
      // What is genuine and can be afforded must be taken.
      ensures
        (old(Truthful(x)) && GenuineDatagram(x, decoder.maxBytes, a.datagram) && Affords(a, old(Snap()), Bounds())) ==>
        !r.refused && Taken(a, old(Now(decoder)), Now(decoder), r, Bounds())
    {
      hide Unclaimed, Counted, Served, Taken, SourceAnswered, RepairAnswered, TransitBytes, Owns, Elsewhere, Views;
      hide Loads, Fed, AllFed, Truthful, Objects, DecodeSource, DecodeRepair, GenuineRepair, Onward, AllReached;
      hide ItemsReached, LossExcused, RecordsOf, Affordable, SourceAffordable;
      ghost var was, max := Snap(), decoder.maxBytes;
      assert Views().Keys == ids.Keys == Loads().Keys by { StoresAre(); }
      AllFedNone(x, max, ids, was.progress.views);
      OnwardNone(ids, was.progress, a.now);
      OwnsBudget(rest);
      Kinds(a.datagram, max);
      resets, closed, r := {}, false, Report([], {}, false, true);
      if a.datagram != [] && a.datagram[0] == SOURCE_DATAGRAM {
        resets, r := ReceiveSource(a.datagram, a.now, a.oldestUnique, rest, promised, x);
        SourceServed(a, ids, was, Snap(), r, Bounds());
      } else if a.datagram == [] || a.datagram[0] != REPAIR_DATAGRAM {
        Lose(rest, was.progress, a.now);
        UnknownServed(a, ids, was, Snap(), r, Bounds());
      } else {
        resets, closed, r := ReceiveRepair(a.datagram, a.now, a.maxSpan, rest, promised, x);
        RepairServed(a, ids, was, Snap(), r, Bounds());
      }
      ServedTaken(a, ids, was, Snap(), r, Bounds());
    }

    /** src/recovery.rs, `receive` for a repair. */
    method ReceiveRepair(datagram: Bytes, now: nat, maxSpan: nat, ghost rest: multiset<Charge>, ghost promised: nat,
                         ghost x: Assignment)
      returns (resets: set<FlowReceiver>, closed: bool, ghost r: Report)
      requires Valid(rest, promised)
      modifies this`preOpen, this`preOpenCount, this`dropped, budget, decoder, Objects()
      ensures Valid(rest, promised) && Elsewhere(rest) == old(Elsewhere(rest))
      ensures ids == old(ids) && flows == old(flows) && Objects() == old(Objects()) && resets <= ids.Keys
      ensures r.closed == closed
      ensures RepairAnswered(datagram, old(Now(decoder)), Now(decoder), r, old(dropped) < dropped, Bounds())
      ensures Onward(ids, old(State()), State(), now)
      ensures ItemsReached(r.items, r.lost, decoder.maxBytes, ids, old(State()), State(), now)
      ensures LossExcused(r.items, r.lost, Margin(0, preOpenLimit - old(preOpenCount), 0, budget.used), Bounds())
      ensures var repair := DecodeRepair(datagram, decoder.maxBytes);
        repair.Ok? && ValidRepair(repair.value) && old(Truthful(x)) && GenuineAs(x, repair.value) ==>
          && Truthful(x) && AllFed(x, decoder.maxBytes, ids, old(Views()), Views())
          && (repair.value.span <= maxSpan && old(Affordable(repair.value, Now(decoder), Bounds())) ==>
                !r.refused && !closed)
      ensures DecodeRepair(datagram, decoder.maxBytes).Err? ==> old(Truthful(x)) ==>
        Truthful(x) && AllFed(x, decoder.maxBytes, ids, old(Views()), Views())
    {
      hide Unclaimed, Counted, RepairAnswered, Owns, Elsewhere, Views, Loads, Fed, AllFed, Truthful, Objects;
      hide DecodeRepair, GenuineRepair, Onward, AllReached, ItemsReached, LossExcused, Handled, Affordable;
      hide RepairEvent;
      ghost var was, start := State(), Now(decoder);
      assert Views().Keys == ids.Keys == Loads().Keys by { StoresAre(); }
      AllFedNone(x, decoder.maxBytes, ids, was.views);
      OnwardNone(ids, was, now);
      var repair := DecodeRepair(datagram, decoder.maxBytes);
      if repair.Ok? { RepairCanonical(datagram, decoder.maxBytes); }
      if repair.Err? || repair.value.span > maxSpan {
        Lose(rest, was, now);
        resets, closed, r := {}, false, Report([], {}, false, true);
        RepairIgnored(datagram, start, Now(decoder), Bounds());
        NothingLost(r.items, Margin(0, preOpenLimit - preOpenCount, 0, budget.used), Bounds());
        NoItems(r.items, r.lost, decoder.maxBytes, ids, was, State(), now);
        return;
      }
      resets, closed, r := AcceptRepair(repair.value, now, rest, promised, x);
      RepairIsAnswered(datagram, start, Now(decoder), r, was.dropped < dropped, Bounds());
    }

    /** The rest of it, for a repair of admitted span. */
    method AcceptRepair(repair: RepairDatagram, now: nat, ghost rest: multiset<Charge>, ghost promised: nat,
                        ghost x: Assignment)
      returns (resets: set<FlowReceiver>, closed: bool, ghost r: Report)
      requires Valid(rest, promised) && ValidRepair(repair)
      modifies this`preOpen, this`preOpenCount, this`dropped, budget, decoder, Objects()
      ensures Valid(rest, promised) && Elsewhere(rest) == old(Elsewhere(rest))
      ensures ids == old(ids) && flows == old(flows) && Objects() == old(Objects()) && resets <= ids.Keys
      ensures r.closed == closed
      ensures if closed
        then |old(Now(decoder)).rows| == Bounds().rows && Ignored(old(Now(decoder)), Now(decoder), r.items)
        else Handled(RepairEvent(repair, r.lost), old(Now(decoder)), Now(decoder), r.items, r.refused,
                     old(dropped) < dropped, Bounds())
      ensures Onward(ids, old(State()), State(), now)
      ensures ItemsReached(r.items, r.lost, decoder.maxBytes, ids, old(State()), State(), now)
      ensures LossExcused(r.items, r.lost, Margin(0, preOpenLimit - old(preOpenCount), 0, budget.used), Bounds())
      ensures old(Truthful(x)) && GenuineAs(x, repair) ==>
        Truthful(x) && AllFed(x, decoder.maxBytes, ids, old(Views()), Views())
      ensures old(Truthful(x)) && GenuineAs(x, repair) && old(Affordable(repair, Now(decoder), Bounds())) ==>
        !r.refused && !closed
    {
      hide Unclaimed, Counted, Owns, Elsewhere, Views, Loads, Fed, AllFed, Truthful, Objects, GenuineRepair;
      hide RecoveredTrue, Paid, Onward, AllReached, ItemsReached, LossExcused, Optimality.Fresh, Steady, Handled;
      hide Accepts, Adopts, Committed, RepairBound, RepairReserve;
      ghost var was, start := State(), Now(decoder);
      assert Views().Keys == ids.Keys == Loads().Keys by { StoresAre(); }
      AllFedNone(x, decoder.maxBytes, ids, was.views);
      OnwardNone(ids, was, now);
      OwnsSteady(rest);
      resets, closed := {}, false;
      var added := AddRepair(repair, rest);
      if added.Err? {
        closed := added.error == RowCapacity;
        r := Report([], {}, closed, !closed);
        if !closed {
          Lose(rest, was, now);
          IgnoredIsHandled(RepairEvent(repair, {}), start, Now(decoder), Bounds());
        }
        NothingLost(r.items, Margin(0, preOpenLimit - preOpenCount, 0, budget.used), Bounds());
        NoItems(r.items, r.lost, decoder.maxBytes, ids, was, State(), now);
        return;
      }
      ghost var added' := Now(decoder);
      AdoptsFresh(RepairEvent(repair, {}), start, added', added.value.items, Bounds());
      ghost var lost;
      resets, lost := DispatchRecovered(added.value, now, rest, promised, x);
      r := Report(added.value.items, lost, false, false);
      AdoptsAnyway(RepairEvent(repair, {}), start, added', r.items, Bounds(), lost);
      AcceptedIsHandled(RepairEvent(repair, lost), start, added', Now(decoder), r.items, old(dropped) < dropped,
                        Bounds());
    }

    /**
     * Any sequence of datagrams: what the flows gained was sent to them, and the budget is balanced throughout.
     * `snaps` are taken before and after each arrival: each is answered as `Receive` promises.
     */
    method ReceiveAll(arrivals: seq<Arrival>, ghost rest: multiset<Charge>, ghost promised: nat, ghost x: Assignment)
      returns (ghost snaps: seq<Snapshot<FlowReceiver>>, ghost reports: seq<Report>)
      requires Valid(rest, promised)
      modifies this`preOpen, this`preOpenCount, this`dropped, budget, decoder, Objects()
      ensures Valid(rest, promised) && Elsewhere(rest) == old(Elsewhere(rest)) && ids == old(ids)
      ensures |reports| == |arrivals| && |snaps| == |arrivals| + 1
      ensures snaps[0] == old(Snap()) && snaps[|arrivals|] == Snap()
      ensures forall i :: 0 <= i <= |arrivals| ==> Steady(snaps[i].moment)
      ensures forall i :: 0 <= i < |arrivals| ==> Served(arrivals[i], ids, snaps[i], snaps[i + 1], reports[i], Bounds())
      ensures Onward(ids, old(State()), State(), Latest(arrivals))
      ensures old(Truthful(x)) && AllGenuineDatagrams(x, decoder.maxBytes, arrivals) ==>
        Truthful(x) && AllFed(x, decoder.maxBytes, ids, old(Views()), Views())
      ensures old(Truthful(x)) && AllGenuineDatagrams(x, decoder.maxBytes, arrivals) ==>
        forall i :: 0 <= i < |arrivals| && Affords(arrivals[i], snaps[i], Bounds()) ==>
          !reports[i].refused && Taken(arrivals[i], snaps[i].moment, snaps[i + 1].moment, reports[i], Bounds())
    {
      hide Unclaimed, Counted, Owns, Elsewhere, Views, Loads, Fed, AllFed, Truthful, Objects, GenuineDatagram, Onward;
      hide AllReached, RecordsOf, ItemsReached, LossExcused, Answered, Affords, Taken, RepeatsIn, Steady;
      ghost var was, truthful := State(), Truthful(x);
      assert Views().Keys == ids.Keys == Loads().Keys by { StoresAre(); }
      AllFedNone(x, decoder.maxBytes, ids, was.views);
      OnwardNone(ids, was, Latest(arrivals));
      snaps, reports := [Snap()], [];
      OwnsSteady(rest);
      var i := 0;
      while i < |arrivals|
        invariant 0 <= i <= |arrivals| && Valid(rest, promised) && Elsewhere(rest) == old(Elsewhere(rest))
        invariant ids == old(ids) && flows == old(flows) && Objects() == old(Objects())
        invariant Onward(ids, was, State(), Latest(arrivals))
        invariant |reports| == i && |snaps| == i + 1 && snaps[0] == old(Snap()) && snaps[i] == Snap()
        invariant forall k :: 0 <= k <= i ==> Steady(snaps[k].moment)
        invariant forall k :: 0 <= k < i ==> Served(arrivals[k], ids, snaps[k], snaps[k + 1], reports[k], Bounds())
        invariant truthful && AllGenuineDatagrams(x, decoder.maxBytes, arrivals) ==>
          Truthful(x) && AllFed(x, decoder.maxBytes, ids, was.views, Views())
        invariant truthful && AllGenuineDatagrams(x, decoder.maxBytes, arrivals) ==>
          forall k :: 0 <= k < i && Affords(arrivals[k], snaps[k], Bounds()) ==>
            !reports[k].refused && Taken(arrivals[k], snaps[k].moment, snaps[k + 1].moment, reports[k], Bounds())
      {
        ghost var before := State();
        var resets, closed, r := Receive(arrivals[i], rest, promised, x);
        if truthful && AllGenuineDatagrams(x, decoder.maxBytes, arrivals) {
          AllFedTwice(x, decoder.maxBytes, ids, was.views, before.views, Views());
        }
        OnwardLater(ids, before, State(), arrivals[i].now, Latest(arrivals));
        OnwardTwice(ids, was, before, State(), Latest(arrivals));
        OwnsSteady(rest);
        snaps, reports := snaps + [Snap()], reports + [r];
        i := i + 1;
      }
    }

    ghost function Snap(): Snapshot<FlowReceiver>
      reads this, Objects(), decoder, decoder.budget
    {
      Snapshot(Now(decoder), State(), preOpenLimit - preOpenCount)
    }

    // ----- flows come and go

    /** A flow is entered in the books; the others do not notice. */
    method Enroll(flowId: nat, f: FlowReceiver)
      requires f !in ids && f.receive.chunks == []
      modifies this`flows, this`ids
      ensures flows == old(flows)[flowId := f] && ids == old(ids)[f := flowId]
      ensures Stores() == old(Stores())[f := []] && Views() == old(Views())[f := f.View()]
      ensures Loads() == old(Loads())[f := f.Burden()]
    {
      hide FlowReceiver.View, FlowReceiver.Burden;
      flows, ids := flows[flowId := f], ids[f := flowId];
    }

    /** A flow without data joins, and takes over the stream's number. */
    method Join(flowId: nat, f: FlowReceiver, ghost hand: multiset<Charge>)
      requires Owns(hand) && f !in ids && f.Sound() && f.receive.chunks == [] && f.receive.budget == budget
      requires forall g :: g in ids ==> g.receive != f.receive && g.received != f.received
      modifies this`flows, this`ids
      ensures Owns(hand) && Elsewhere(hand) == old(Elsewhere(hand))
      ensures flows == old(flows)[flowId := f] && ids == old(ids)[f := flowId]
      ensures Views() == old(Views())[f := f.View()] && Loads() == old(Loads())[f := f.Burden()]
    {
      hide FlowReceiver.Sound, FlowReceiver.View, FlowReceiver.Burden, Decoder.Valid, Decoder.Settled, Parted;
      hide Foreign, Waiting;
      Joined(budget.ledger, decoder, Stores(), Waiting(preOpen) + hand, f);
      Enroll(flowId, f);
    }

    /** The pre-open records of one stream are taken out, with their charges. */
    method TakeFor(flowId: nat, ghost hand: multiset<Charge>, ghost promised: nat) returns (mine: seq<PreOpenRecord>)
      requires Owns(hand) && Counted(promised)
      modifies this`preOpen, this`preOpenCount
      ensures Owns(hand + Waiting(mine)) && Counted(promised)
      ensures Elsewhere(hand + Waiting(mine)) == old(Elsewhere(hand))
      ensures Views() == old(Views()) && Loads() == old(Loads())
      ensures preOpen == Addressed(old(preOpen), flowId, false) && mine == Addressed(old(preOpen), flowId, true)
      ensures forall k :: 0 <= k < |mine| ==> |mine[k].record.data| <= mine[k].charge.bytes
    {
      hide Owns, Elsewhere, Views, Loads, Waiting, Addressed;
      var records := TakeAll(hand);
      mine := [];
      var i := 0;
      assert records[0..] == records;
      AddressedStart(hand, records, flowId);
      while i < |records|
        invariant 0 <= i <= |records| && |preOpen| + |mine| == i
        invariant Owns(hand + Waiting(mine) + Waiting(records[i..]))
        invariant Elsewhere(hand + Waiting(mine) + Waiting(records[i..])) == old(Elsewhere(hand))
        invariant Views() == old(Views()) && Loads() == old(Loads()) && preOpenCount == old(preOpenCount)
        invariant preOpen + Addressed(records[i..], flowId, false) == Addressed(records, flowId, false)
        invariant forall k :: 0 <= k < |mine| ==> |mine[k].record.data| <= mine[k].charge.bytes
        invariant mine + Addressed(records[i..], flowId, true) == Addressed(records, flowId, true)
      {
        var r := records[i];
        AddressedNext(preOpen, records, i, flowId, false);
        AddressedNext(mine, records, i, flowId, true);
        WaitingNext(hand + Waiting(mine), records, i);
        if r.record.flowId == flowId {
          WaitingMore(hand, mine, records, i);
          mine := mine + [r];
        } else {
          Keep(r, hand + Waiting(mine) + Waiting(records[i..]));
        }
        i := i + 1;
      }
      assert records[i..] == [];
      AddressedStart(hand + Waiting(mine), records, flowId);
      Recount(preOpenCount - |mine|, hand + Waiting(mine));
    }

    lemma AddressedStart(hand: multiset<Charge>, records: seq<PreOpenRecord>, flowId: nat)
      ensures hand + Waiting([]) == hand && hand + Waiting([]) + Waiting(records) == hand + Waiting(records)
      ensures Addressed([], flowId, false) == [] == Addressed([], flowId, true)
    {
    }

    lemma WaitingMore(hand: multiset<Charge>, mine: seq<PreOpenRecord>, records: seq<PreOpenRecord>, i: nat)
      requires i < |records|
      ensures hand + Waiting(mine) + Waiting(records[i..]) ==
          hand + Waiting(mine + [records[i]]) + Waiting(records[i + 1..])
    {
      WaitingConcat(mine, [records[i]]);
      WaitingOne(records[i]);
      WaitingNext(hand + Waiting(mine), records, i);
      hide Waiting;
      assert Waiting(records[i..]) == multiset{records[i].charge} + Waiting(records[i + 1..]) by {
        WaitingHead(records, i);
      }
      Reassociate(hand, Waiting(mine), multiset{records[i].charge});
      Reassociate(hand + Waiting(mine), multiset{records[i].charge}, Waiting(records[i + 1..]));
    }

    lemma WaitingHead(records: seq<PreOpenRecord>, i: nat)
      requires i < |records|
      ensures Waiting(records[i..]) == multiset{records[i].charge} + Waiting(records[i + 1..])
    {
      assert records[i..][1..] == records[i + 1..];
    }

    /** One record that was waiting: it goes to the flow, unless it waited too long. */
    method HandWaiting(f: FlowReceiver, r: PreOpenRecord, now: nat, ghost hand: multiset<Charge>, ghost x: Assignment)
      returns (reset: bool, ghost answer: Option<RecoveryError>)
      requires Owns(hand) && f in ids && ids[f] == r.record.flowId && r.charge in hand
      requires |r.record.data| <= r.charge.bytes
      modifies this`dropped, budget, f, f.receive, f.received
      ensures Owns(hand - multiset{r.charge}) && Elsewhere(hand - multiset{r.charge}) == old(Elsewhere(hand))
      ensures ids == old(ids) && flows == old(flows) && Onward(ids, old(State()), State(), now)
      ensures HandedOn(r, answer, f, old(State()), State(), now) && reset == Blames(answer)
      ensures old(Truthful(x)) && SentIn(x, decoder.maxBytes, r.record) ==>
        Truthful(x) && AllFed(x, decoder.maxBytes, ids, old(Views()), Views())
    {
      hide Owns, Elsewhere, Views, Loads, Fed, AllFed, SentIn, Truthful, FlowReceiver.View, Onward, AllReached;
      hide Objects, Told;
      reset, answer := false, None;
      if r.expiresAt <= now {
        assert Views().Keys == ids.Keys == Loads().Keys by { StoresAre(); }
        AllFedNone(x, decoder.maxBytes, ids, Views());
        OnwardNone(ids, State(), now);
        ghost var was := State();
        Discard(r.charge, hand);
        Lose(hand - multiset{r.charge}, was, now);
      } else {
        var error := GiveTo(f, r.record, r.charge, hand, x, now);
        reset, answer := Blames(error), error;
      }
    }

    /** All the records that were waiting go to their flow. */
    method HandAll(f: FlowReceiver, mine: seq<PreOpenRecord>, now: nat, ghost hand: multiset<Charge>,
                   ghost x: Assignment)
      returns (reset: bool, ghost answers: seq<Option<RecoveryError>>)
      requires Owns(hand + Waiting(mine)) && f in ids && forall k :: 0 <= k < |mine| ==> mine[k].record.flowId == ids[f]
      requires forall k :: 0 <= k < |mine| ==> |mine[k].record.data| <= mine[k].charge.bytes
      modifies this`dropped, budget, f, f.receive, f.received
      ensures Owns(hand) && Elsewhere(hand) == old(Elsewhere(hand + Waiting(mine)))
      ensures ids == old(ids) && flows == old(flows) && Onward(ids, old(State()), State(), now)
      ensures AllHandedOn(mine, answers, f, old(State()), State(), now)
      ensures reset <==> exists k :: 0 <= k < |answers| && Blames(answers[k])
      ensures old(Truthful(x)) && (forall k :: 0 <= k < |mine| ==> SentIn(x, decoder.maxBytes, mine[k].record)) ==>
        Truthful(x) && AllFed(x, decoder.maxBytes, ids, old(Views()), Views())
    {
      hide Owns, Elsewhere, Views, Loads, Fed, AllFed, Waiting, SentIn, Truthful, FlowReceiver.View, Onward, HandedOn;
      hide AllHandedOn, Objects;
      ghost var was, others, truthful := State(), Elsewhere(hand + Waiting(mine)), Truthful(x);
      assert Views().Keys == ids.Keys == Loads().Keys by { StoresAre(); }
      AllFedNone(x, decoder.maxBytes, ids, was.views);
      OnwardNone(ids, was, now);
      reset, answers := false, [];
      var i := 0;
      assert mine[0..] == mine && mine[..0] == [];
      NoneHanded(f, was, now);
      while i < |mine|
        invariant 0 <= i <= |mine| && ids == old(ids) && flows == old(flows) && preOpen == was.pre
        invariant Owns(hand + Waiting(mine[i..])) && Elsewhere(hand + Waiting(mine[i..])) == others
        invariant Onward(ids, was, State(), now) && AllHandedOn(mine[..i], answers, f, was, State(), now)
        invariant |answers| == i && (reset <==> exists k :: 0 <= k < i && Blames(answers[k]))
        invariant truthful && (forall k :: 0 <= k < |mine| ==> SentIn(x, decoder.maxBytes, mine[k].record)) ==>
          Truthful(x) && AllFed(x, decoder.maxBytes, ids, was.views, Views())
      {
        ghost var before := State();
        WaitingNext(hand, mine, i);
        var failed;
        ghost var answer;
        failed, answer := HandWaiting(f, mine[i], now, hand + Waiting(mine[i..]), x);
        if truthful && (forall k :: 0 <= k < |mine| ==> SentIn(x, decoder.maxBytes, mine[k].record)) {
          AllFedTwice(x, decoder.maxBytes, ids, was.views, before.views, Views());
        }
        HandedNext(mine, i, answers, answer, f, ids, was, before, State(), now);
        BlamesNext(answers, answer);
        reset, answers := reset || failed, answers + [answer];
        i := i + 1;
      }
      assert mine[i..] == [] && mine[..i] == mine;
      WaitingNone(hand, now);
    }

    lemma BlamesNext(answers: seq<Option<RecoveryError>>, answer: Option<RecoveryError>)
      ensures var all := answers + [answer];
        (exists k :: 0 <= k < |all| && Blames(all[k])) <==>
        (exists k :: 0 <= k < |answers| && Blames(answers[k])) || Blames(answer)
    {
      hide Blames;
      var all := answers + [answer];
      if k :| 0 <= k < |answers| && Blames(answers[k]) {
        assert Blames(all[k]);
      }
      assert all[|answers|] == answer;
    }

    /**
     * src/recovery.rs, `register_flow`: a new flow gets the records that were waiting for it, unless they waited too
     * long.
     */
    method Register(flowId: nat, f: FlowReceiver, now: nat, ghost hand: multiset<Charge>, ghost promised: nat,
                    ghost x: Assignment)
      returns (reset: bool, ghost answers: seq<Option<RecoveryError>>)
      requires Valid(hand, promised) && f !in ids && f.Sound() && f.receive.chunks == [] && f.receive.budget == budget
      requires forall g :: g in ids ==> g.receive != f.receive && g.received != f.received
      modifies this, budget, f, f.receive, f.received
      ensures Valid(hand, promised) && Elsewhere(hand) == old(Elsewhere(hand))
      ensures flows == old(flows)[flowId := f] && ids == old(ids)[f := flowId]
      ensures preOpen == Addressed(old(preOpen), flowId, false)
      ensures var joined := Progress(old(Views())[f := old(f.View())], old(Loads())[f := old(f.Burden())], preOpen,
                                     old(dropped), flows);
        && Onward(ids, joined, State(), now)
        && AllHandedOn(Addressed(old(preOpen), flowId, true), answers, f, joined, State(), now)
      ensures reset <==> exists k :: 0 <= k < |answers| && Blames(answers[k])
      ensures old(Truthful(x)) ==>
        Truthful(x) && AllFed(x, decoder.maxBytes, ids, old(Views())[f := old(f.View())], Views())
    {
      hide Owns, Elsewhere, Views, Loads, Fed, AllFed, Waiting, SentIn, Addressed, FlowReceiver.Sound;
      hide FlowReceiver.View, Decoder.Explained, Onward, AllHandedOn, FlowReceiver.Burden;
      AddressedFrom(preOpen, flowId, false);
      AddressedFrom(preOpen, flowId, true);
      AddressedStrangers(preOpen, flowId, f, flows);
      Join(flowId, f, hand);
      var mine := TakeFor(flowId, hand, promised);
      reset, answers := HandAll(f, mine, now, hand, x);
    }

    /** src/recovery.rs, `unregister_flow`. The flow may live on for a while. */
    method Unregister(flowId: nat, ghost hand: multiset<Charge>, ghost promised: nat)
      requires Valid(hand, promised)
      modifies this`flows
      ensures Valid(hand, promised) && Elsewhere(hand) == old(Elsewhere(hand))
      ensures Views() == old(Views()) && Loads() == old(Loads())
      ensures flows == old(flows) - {flowId}
    {
      hide FlowReceiver.Sound, FlowReceiver.View, FlowReceiver.Burden, Decoder.Valid, Decoder.Settled, Parted;
      hide Foreign, Waiting;
      flows := flows - {flowId};
      assert Stores() == old(Stores());
    }

    /** The buffer of one flow is emptied; the others do not notice. */
    method DropBuffer(f: FlowReceiver)
      requires Apart() && (forall g :: g in ids ==> g.Sound()) && f in ids
      requires budget.Valid() && Owned(budget.ledger, f.receive.chunks)
      modifies budget, f.receive
      ensures budget.Valid() && budget.ledger == Others(old(budget.ledger), old(f.receive.chunks))
      ensures forall g :: g in ids && g != f ==> g.Sound()
      ensures Stores() - {f} == old(Stores()) - {f} && Views() - {f} == old(Views()) - {f}
      ensures Loads() - {f} == old(Loads()) - {f}
    {
      hide FlowReceiver.Sound, FlowReceiver.View, FlowReceiver.Burden, Owned, Others, Tokens, MemoryBudget.Valid;
      assert f.receive.Valid() by { f.ValidIs(); ReceiveIs(f); }
      f.receive.Drop();
      forall g | g in ids && g != f
        ensures g.Sound() && g.View() == old(g.View()) && g.receive.chunks == old(g.receive.chunks)
        ensures g.Burden() == old(g.Burden())
      {
      }
    }

    /** A flow leaves the books. */
    method Forget(f: FlowReceiver)
      requires Apart() && f in ids && forall g :: g in ids && g != f ==> g.Sound()
      modifies this`flows, this`ids
      ensures (forall g :: g in ids ==> g.Sound()) && Apart() && ids == old(ids) - {f} && f !in flows.Values
      ensures flows == map id | id in old(flows) && old(flows)[id] != f :: old(flows)[id]
      ensures Stores() == old(Stores()) - {f} && Views() == old(Views()) - {f} && Loads() == old(Loads()) - {f}
    {
      hide FlowReceiver.View, FlowReceiver.Burden, FlowReceiver.Sound;
      flows := map id | id in flows && flows[id] != f :: flows[id];
      ids := ids - {f};
    }

    /** A flow is dropped: everything it had buffered goes back to the budget. */
    method DropFlow(f: FlowReceiver, ghost hand: multiset<Charge>, ghost promised: nat)
      requires Valid(hand, promised) && f in ids
      modifies this`flows, this`ids, budget, f.receive
      ensures Valid(hand, promised) && Elsewhere(hand) == old(Elsewhere(hand))
      ensures ids == old(ids) - {f} && flows == map id | id in old(flows) && old(flows)[id] != f :: old(flows)[id]
      ensures Views() == old(Views()) - {f} && Loads() == old(Loads()) - {f}
    {
      hide FlowReceiver.Sound, FlowReceiver.View, FlowReceiver.Burden, Decoder.Valid, Decoder.Settled, Parted;
      hide Foreign, Waiting, Owned, Others, Tokens, MemoryBudget.Valid, Stores, Views, Loads, Apart;
      ghost var ledger, stores, charges := budget.ledger, Stores(), Waiting(preOpen) + hand;
      assert decoder.budget == budget by { ApartIs(); }
      DecoderIs();
      StoresAre();
      Left(ledger, decoder, stores, charges, f);
      LeftAlone(f, ledger, charges);
      DropBuffer(f);
      DecoderIs();
      Forget(f);
    }

    lemma ApartIs()
      requires Apart()
      ensures decoder.budget == budget
    {
    }

    lemma ReceiveIs(f: FlowReceiver)
      requires f.Valid()
      ensures f.receive.Valid()
    {
    }

    lemma LeftAlone(f: FlowReceiver, ledger: map<object, nat>, charges: multiset<Charge>)
      requires f in ids && Parted(ledger, decoder, Stores(), charges) && decoder in ledger
      ensures Owned(ledger, f.receive.chunks)
      ensures decoder in Others(ledger, f.receive.chunks)
      ensures Others(ledger, f.receive.chunks)[decoder] == ledger[decoder]
    {
      assert f.receive.chunks == Stores()[f];
      OwnedInStores(Stores(), f, ledger);
    }

    /** Every reserved byte is the decoder's, a flow's, a record's or charge's in transit, or somebody else's, and the
        counter is their sum; without flows and records only the decoder's bytes are left. */
    lemma Balance(hand: multiset<Charge>)
      requires Owns(hand)
      ensures budget.used == decoder.Owned() + Share(budget.ledger, StoreTokens(Stores()))
        + Share(budget.ledger, TokensOf(Waiting(preOpen) + hand)) + Total(Elsewhere(hand))
      ensures budget.used <= budget.limit
      ensures ids == map[] && preOpen == [] && hand == multiset{} ==>
        budget.used == decoder.Owned() + Total(Elsewhere(hand))
    {
      hide FlowReceiver.Sound, Decoder.Shape, Decoder.Settled, Parted, Foreign, Share, Tokens;
      Adds(budget.ledger, decoder, Stores(), Waiting(preOpen) + hand);
      if ids == map[] && preOpen == [] && hand == multiset{} {
        assert Stores() == map[] && StoreTokens(Stores()) == {};
        assert TokensOf(Waiting(preOpen) + hand) == {};
        ShareNone(budget.ledger);
      }
    }
  }
}
