/** Records on their way from datagrams to flows: what may change in a flow, and who pays (src/recovery.rs). */
module Inflow {
  import opened Results
  import opened Galois
  import opened Varint
  import opened Rows
  import opened Harvest
  import opened SourceCodec
  import opened AckRanges
  import opened Chunks
  import opened Gaps
  import opened Budget
  import opened Charges
  import opened Receiving

  // ----- what a sender of the symbols x put on the wire

  ghost predicate DecodesTo(bytes: Bytes, max: nat, r: Record) {
    match DecodeSource(bytes, MAX_SOURCE_RECORDS, max)
    case Ok(source) => r in source.records
    case Err(_) => false
  }

  /** The record is in one of the symbols x. */
  ghost predicate SentIn(x: Assignment, max: nat, r: Record) {
    exists id :: id in x && DecodesTo(x[id], max, r)
  }

  predicate Carries(r: Record, o: nat, b: byte) {
    r.offset <= o < r.offset + |r.data| && r.data[o - r.offset] == b
  }

  ghost predicate Brought(x: Assignment, max: nat, flowId: nat, o: nat, b: byte) {
    exists r :: SentIn(x, max, r) && r.flowId == flowId && Carries(r, o, b)
  }

  ghost predicate Ended(x: Assignment, max: nat, flowId: nat, end: nat) {
    exists r :: SentIn(x, max, r) && r.flowId == flowId && r.fin && end == r.offset + |r.data|
  }

  /** A flow gained nothing but bytes, and perhaps an end, that were sent to it. */
  ghost predicate Fed(x: Assignment, max: nat, flowId: nat, was: Inbox, now: Inbox) {
    && now.next == was.next && now.window == was.window && now.credit == was.credit
    && (forall o: nat :: o in was.content ==> o in now.content && now.content[o] == was.content[o])
    && (forall o: nat :: o in now.content && o !in was.content ==> Brought(x, max, flowId, o, now.content[o]))
    && (now.final == was.final || (now.final.Some? && Ended(x, max, flowId, now.final.value)))
  }

  ghost predicate AllFed<F>(x: Assignment, max: nat, ids: map<F, nat>, was: map<F, Inbox>, now: map<F, Inbox>) {
    forall f :: f in ids ==> f in was && f in now && Fed(x, max, ids[f], was[f], now[f])
  }

  ghost predicate AllSent(x: Assignment, max: nat, records: seq<PendingRecord>) {
    forall k :: 0 <= k < |records| ==> SentIn(x, max, records[k].record)
  }

  lemma FedOnce(x: Assignment, max: nat, r: Record, was: Inbox, now: Inbox, error: Option<RecoveryError>)
    requires Receives(was, now, r.offset, r.data, r.fin, error) && SentIn(x, max, r)
    ensures Fed(x, max, r.flowId, was, now)
  {
    hide SentIn, Ends;
    if error.None? {
      forall o: nat | o in now.content && o !in was.content ensures Brought(x, max, r.flowId, o, now.content[o]) {
        assert Carries(r, o, now.content[o]);
      }
      assert r.fin ==> Ended(x, max, r.flowId, r.offset + |r.data|);
    }
  }

  lemma FedTwice(x: Assignment, max: nat, flowId: nat, a: Inbox, b: Inbox, c: Inbox)
    requires Fed(x, max, flowId, a, b) && Fed(x, max, flowId, b, c)
    ensures Fed(x, max, flowId, a, c)
  {
    hide Brought, Ended;
  }

  lemma AllFedNone<F>(x: Assignment, max: nat, ids: map<F, nat>, views: map<F, Inbox>)
    requires views.Keys == ids.Keys
    ensures AllFed(x, max, ids, views, views)
  {
  }

  lemma AllFedOnce<F>(x: Assignment, max: nat, ids: map<F, nat>, views: map<F, Inbox>, f: F, r: Record, now: Inbox,
                      error: Option<RecoveryError>)
    requires views.Keys == ids.Keys && f in ids && ids[f] == r.flowId
    requires Receives(views[f], now, r.offset, r.data, r.fin, error) && SentIn(x, max, r)
    ensures AllFed(x, max, ids, views, views[f := now])
  {
    FedOnce(x, max, r, views[f], now, error);
    hide SentIn, Brought, Ended;
  }

  lemma AllFedTwice<F>(x: Assignment, max: nat, ids: map<F, nat>, a: map<F, Inbox>, b: map<F, Inbox>, c: map<F, Inbox>)
    requires AllFed(x, max, ids, a, b) && AllFed(x, max, ids, b, c)
    ensures AllFed(x, max, ids, a, c)
  {
    hide Fed;
    forall f | f in ids ensures f in a && f in c && Fed(x, max, ids[f], a[f], c[f]) {
      FedTwice(x, max, ids[f], a[f], b[f], c[f]);
    }
  }

  // ----- records in transit

  /** A record with the flow that was found for it and the charge that pays for it. */
  datatype PendingRecord = PendingRecord(
    flow: Option<FlowReceiver>, record: Record, retained: nat, charge: Option<Charge>)
  {
    predicate Charged() {
      charge.Some? && |record.data| <= charge.value.bytes
    }
  }

  /** A record that waits for its flow to be opened. */
  datatype PreOpenRecord = PreOpenRecord(record: Record, charge: Charge, expiresAt: nat)

  ghost function Purse(charge: Option<Charge>): multiset<Charge> {
    if charge.Some? then multiset{charge.value} else multiset{}
  }

  ghost function InHand(records: seq<PendingRecord>): multiset<Charge> {
    if records == [] then multiset{} else Purse(records[0].charge) + InHand(records[1..])
  }

  ghost function Waiting(records: seq<PreOpenRecord>): multiset<Charge> {
    if records == [] then multiset{} else multiset{records[0].charge} + Waiting(records[1..])
  }

  lemma Reassociate<T>(a: multiset<T>, b: multiset<T>, c: multiset<T>)
    ensures a + (b + c) == a + b + c
  {
  }

  lemma {:induction false} InHandConcat(a: seq<PendingRecord>, b: seq<PendingRecord>)
    ensures InHand(a + b) == InHand(a) + InHand(b)
  {
    if a == [] {
      assert a + b == b;
    } else {
      assert (a + b)[1..] == a[1..] + b;
      assert InHand(a + b) == Purse(a[0].charge) + InHand(a[1..] + b);
      assert InHand(a) == Purse(a[0].charge) + InHand(a[1..]);
      hide *;
      InHandConcat(a[1..], b);
      Reassociate(Purse(a[0].charge), InHand(a[1..]), InHand(b));
    }
  }

  lemma InHandOne(r: PendingRecord)
    ensures InHand([r]) == Purse(r.charge)
  {
    assert [r][1..] == [];
  }

  lemma {:induction false} InHandSame(a: seq<PendingRecord>, b: seq<PendingRecord>)
    requires |a| == |b| && forall k :: 0 <= k < |a| ==> a[k].charge == b[k].charge
    ensures InHand(a) == InHand(b)
  {
    if a != [] {
      InHandSame(a[1..], b[1..]);
    }
  }

  lemma {:induction false} WaitingConcat(a: seq<PreOpenRecord>, b: seq<PreOpenRecord>)
    ensures Waiting(a + b) == Waiting(a) + Waiting(b)
  {
    if a == [] {
      assert a + b == b;
    } else {
      assert (a + b)[1..] == a[1..] + b;
      assert Waiting(a + b) == multiset{a[0].charge} + Waiting(a[1..] + b);
      assert Waiting(a) == multiset{a[0].charge} + Waiting(a[1..]);
      hide *;
      WaitingConcat(a[1..], b);
      Reassociate(multiset{a[0].charge}, Waiting(a[1..]), Waiting(b));
    }
  }

  lemma WaitingOne(r: PreOpenRecord)
    ensures Waiting([r]) == multiset{r.charge}
  {
    assert [r][1..] == [];
  }

  /** How many records still have no flow. */
  function Unopened(records: seq<PendingRecord>): nat {
    if records == [] then 0 else (if records[0].flow.None? then 1 else 0) + Unopened(records[1..])
  }

  /** What keeping a record costs: a copy of its data, or the buffer it lies in. */
  function Cost(r: PendingRecord): nat {
    if r.flow.None? then |r.record.data| else r.retained
  }

  /** What the records without a charge cost together. */
  function Owing(records: seq<PendingRecord>): nat {
    if records == [] then 0 else (if records[0].charge.None? then Cost(records[0]) else 0) + Owing(records[1..])
  }

  /** The most that they may cost. */
  function Due(records: seq<PendingRecord>): nat {
    if records == [] then 0 else (if records[0].charge.None? then records[0].retained else 0) + Due(records[1..])
  }

  lemma {:induction false} OwingMost(out: seq<PendingRecord>, records: seq<PendingRecord>)
    requires |out| == |records|
    requires forall k :: 0 <= k < |out| ==>
      && out[k].record == records[k].record && out[k].charge == records[k].charge
      && out[k].retained == records[k].retained
      && (records[k].charge.None? ==> |records[k].record.data| <= records[k].retained)
    ensures Owing(out) <= Due(records)
  {
    if out != [] {
      OwingMost(out[1..], records[1..]);
    }
  }

  lemma {:induction false} UnopenedMost(records: seq<PendingRecord>)
    ensures Unopened(records) <= |records|
  {
    if records != [] {
      UnopenedMost(records[1..]);
    }
  }

  lemma {:induction false} NothingDue(records: seq<PendingRecord>)
    requires AllCharged(records)
    ensures Due(records) == 0
  {
    if records != [] {
      NothingDue(records[1..]);
    }
  }

  function DataBytes(records: seq<Record>): nat {
    if records == [] then 0 else |records[0].data| + DataBytes(records[1..])
  }

  lemma {:induction false} DataFits(records: seq<Record>)
    ensures DataBytes(records) <= |EncodeRecords(records)|
  {
    if records != [] {
      DataFits(records[1..]);
    }
  }

  /** A datagram is longer than all the data in it. */
  lemma DecodedFits(bytes: Bytes, max: nat)
    requires DecodeSource(bytes, MAX_SOURCE_RECORDS, max).Ok?
    ensures DataBytes(DecodeSource(bytes, MAX_SOURCE_RECORDS, max).value.records) <= |bytes| <= max
  {
    var source := DecodeSource(bytes, MAX_SOURCE_RECORDS, max).value;
    SourceCanonical(bytes, MAX_SOURCE_RECORDS, max);
    DataFits(source.records);
    hide EncodeRecords, ParseSource, ToBytes;
  }

  /** Records that have not waited too long. */
  function Unexpired(records: seq<PreOpenRecord>, now: nat): seq<PreOpenRecord> {
    if records == [] then []
    else (if records[0].expiresAt > now then [records[0]] else []) + Unexpired(records[1..], now)
  }

  lemma UnexpiredNext(kept: seq<PreOpenRecord>, records: seq<PreOpenRecord>, i: nat, now: nat)
    requires i < |records|
    ensures kept + Unexpired(records[i..], now) ==
      (if records[i].expiresAt > now then kept + [records[i]] else kept) + Unexpired(records[i + 1..], now)
  {
    assert records[i..][1..] == records[i + 1..];
  }

  lemma {:induction false} UnexpiredFrom(records: seq<PreOpenRecord>, now: nat)
    ensures forall k :: 0 <= k < |Unexpired(records, now)| ==> Unexpired(records, now)[k] in records
  {
    if records != [] {
      UnexpiredFrom(records[1..], now);
    }
  }

  // ----- charging records one after another

  /** What is in hand while records are charged in order out of one charge. */
  ghost function Sharing(rest: multiset<Charge>, done: seq<PendingRecord>, left: seq<PendingRecord>, charge: Charge)
    : multiset<Charge>
  {
    rest + InHand(done) + InHand(left) + multiset{charge}
  }

  ghost predicate SameRecords(a: seq<PendingRecord>, b: seq<PendingRecord>) {
    |a| == |b| && forall k :: 0 <= k < |a| ==> a[k].record == b[k].record && a[k].flow == b[k].flow
  }

  predicate AllCharged(records: seq<PendingRecord>) {
    forall k :: 0 <= k < |records| ==> records[k].Charged()
  }

  lemma InHandNext(records: seq<PendingRecord>, i: nat)
    requires i < |records|
    ensures InHand(records[i..]) == Purse(records[i].charge) + InHand(records[i + 1..])
    ensures Unopened(records[i..]) == (if records[i].flow.None? then 1 else 0) + Unopened(records[i + 1..])
    ensures Owing(records[i..]) == (if records[i].charge.None? then Cost(records[i]) else 0) + Owing(records[i + 1..])
  {
    assert records[i..][0] == records[i] && records[i..][1..] == records[i + 1..];
  }

  lemma {:induction false} UnopenedSame(a: seq<PendingRecord>, b: seq<PendingRecord>)
    requires SameRecords(a, b)
    ensures Unopened(a) == Unopened(b)
  {
    if a != [] {
      UnopenedSame(a[1..], b[1..]);
    }
  }

  /** A record that is charged already moves on as it is. */
  lemma ShareNext(rest: multiset<Charge>, done: seq<PendingRecord>, left: seq<PendingRecord>, charge: Charge, i: nat)
    requires i < |left|
    ensures Sharing(rest, done, left[i..], charge) == Sharing(rest, done + [left[i]], left[i + 1..], charge)
  {
    InHandNext(left, i);
    InHandConcat(done, [left[i]]);
    InHandOne(left[i]);
    hide InHand, Purse;
    var purse, tail := Purse(left[i].charge), InHand(left[i + 1..]);
    assert rest + InHand(done) + (purse + tail) == rest + (InHand(done) + purse) + tail;
  }

  /** A record without a charge moves on with its part of the charge. */
  lemma ShareOut(rest: multiset<Charge>, done: seq<PendingRecord>, left: seq<PendingRecord>, charge: Charge,
                 less: Charge, part: Charge, i: nat, r: PendingRecord)
    requires i < |left| && left[i].charge.None? && r.charge == Some(part)
    ensures Sharing(rest, done, left[i..], charge) - multiset{charge} + multiset{less} + multiset{part}
      == Sharing(rest, done + [r], left[i + 1..], less)
  {
    InHandNext(left, i);
    InHandConcat(done, [r]);
    InHandOne(r);
    var tail := InHand(left[i + 1..]);
    hide InHand;
    assert multiset{} + tail == tail;
    assert rest + InHand(done) + tail + multiset{charge} - multiset{charge} == rest + InHand(done) + tail;
    assert rest + InHand(done) + tail + multiset{less} + multiset{part} ==
        rest + (InHand(done) + multiset{part}) + tail + multiset{less};
  }

  lemma ShareStart(rest: multiset<Charge>, records: seq<PendingRecord>, charge: Charge)
    ensures Sharing(rest, [], records, charge) == rest + InHand(records) + multiset{charge}
    ensures Sharing(rest, records, [], charge) == rest + InHand(records) + multiset{charge}
    ensures Sharing(rest, records, [], charge) - multiset{charge} == rest + InHand(records)
  {
    hide InHand;
    assert InHand([]) == multiset{} by { InHandEmpty(); }
    assert rest + multiset{} == rest;
    assert rest + InHand(records) + multiset{} == rest + InHand(records);
    assert rest + InHand(records) + multiset{charge} - multiset{charge} == rest + InHand(records);
  }

  lemma InHandEmpty()
    ensures InHand([]) == multiset{} && Unopened([]) == 0 && Owing([]) == 0
  {
  }

  /** Records as they come out of a datagram, each with a charge for its data. */
  ghost predicate Parcels(records: seq<Record>, out: seq<PendingRecord>) {
    && |out| == |records| && AllCharged(out)
    && forall k :: 0 <= k < |out| ==> out[k].record == records[k] && out[k].flow.None?
  }

  lemma DataNext(records: seq<Record>, i: nat)
    requires i < |records|
    ensures DataBytes(records[i..]) == |records[i].data| + DataBytes(records[i + 1..])
  {
    assert records[i..][0] == records[i] && records[i..][1..] == records[i + 1..];
  }

  /** One more record has its part of the charge. */
  lemma ParcelNext(rest: multiset<Charge>, done: seq<PendingRecord>, charge: Charge, less: Charge, part: Charge,
                   r: PendingRecord)
    requires r.charge == Some(part)
    ensures charge in rest + multiset{charge} + InHand(done)
    ensures rest + multiset{charge} + InHand(done) - multiset{charge} + multiset{less} + multiset{part}
      == rest + multiset{less} + InHand(done + [r])
  {
    InHandConcat(done, [r]);
    InHandOne(r);
    hide InHand;
    assert rest + multiset{charge} + InHand(done) - multiset{charge} == rest + InHand(done);
    assert rest + InHand(done) + multiset{less} + multiset{part} ==
        rest + multiset{less} + (InHand(done) + multiset{part});
  }

  lemma SentFrom(x: Assignment, max: nat, id: Id, bytes: Bytes, records: seq<PendingRecord>)
    requires id in x && x[id] == bytes && DecodeSource(bytes, MAX_SOURCE_RECORDS, max).Ok?
    requires var source := DecodeSource(bytes, MAX_SOURCE_RECORDS, max).value;
      |records| == |source.records| && forall k :: 0 <= k < |records| ==> records[k].record == source.records[k]
    ensures AllSent(x, max, records)
  {
    hide DecodeSource;
    forall k | 0 <= k < |records| ensures SentIn(x, max, records[k].record) {
      assert DecodesTo(x[id], max, records[k].record);
    }
  }

  /** The records of one stream, or those of all the others. */
  function Addressed(records: seq<PreOpenRecord>, flowId: nat, yes: bool): seq<PreOpenRecord> {
    if records == [] then []
    else
      (if (records[0].record.flowId == flowId) == yes then [records[0]] else []) +
      Addressed(records[1..], flowId, yes)
  }

  lemma AddressedNext(taken: seq<PreOpenRecord>, records: seq<PreOpenRecord>, i: nat, flowId: nat, yes: bool)
    requires i < |records|
    ensures taken + Addressed(records[i..], flowId, yes) ==
      (if (records[i].record.flowId == flowId) == yes then taken + [records[i]] else taken) +
        Addressed(records[i + 1..], flowId, yes)
  {
    assert records[i..][1..] == records[i + 1..];
  }

  lemma {:induction false} AddressedFrom(records: seq<PreOpenRecord>, flowId: nat, yes: bool)
    ensures forall k :: 0 <= k < |Addressed(records, flowId, yes)| ==>
      Addressed(records, flowId, yes)[k] in records &&
        (Addressed(records, flowId, yes)[k].record.flowId == flowId) == yes
  {
    if records != [] {
      AddressedFrom(records[1..], flowId, yes);
    }
  }

  /** None of these records belongs to a registered stream. */
  ghost predicate Strangers<F>(records: seq<PreOpenRecord>, flows: map<nat, F>) {
    forall k :: 0 <= k < |records| ==> records[k].record.flowId !in flows
  }

  lemma {:induction false} UnexpiredStrangers<F>(records: seq<PreOpenRecord>, now: nat, flows: map<nat, F>)
    requires Strangers(records, flows)
    ensures Strangers(Unexpired(records, now), flows)
  {
    UnexpiredFrom(records, now);
    hide Unexpired;
  }

  lemma StrangersNext<F>(records: seq<PreOpenRecord>, r: PreOpenRecord, flows: map<nat, F>)
    requires Strangers(records, flows) && r.record.flowId !in flows
    ensures Strangers(records + [r], flows)
  {
  }

  // The other records stay strangers when a flow takes over a stream's number.
  lemma AddressedStrangers<F>(records: seq<PreOpenRecord>, flowId: nat, f: F, flows: map<nat, F>)
    requires Strangers(records, flows)
    ensures Strangers(Addressed(records, flowId, false), flows[flowId := f])
  {
    AddressedFrom(records, flowId, false);
    hide Addressed;
  }

  // ----- nothing is dropped without a reason, or without being counted

  /**
   * What the flows have received and what bounds them, what waits for a flow, how much was dropped, and which streams
   * are registered.
   */
  datatype Progress<F> = Progress(
    views: map<F, Inbox>, loads: map<F, Load>, pre: seq<PreOpenRecord>, dropped: nat, flows: map<nat, F>)

  /** A flow has only gained. */
  ghost predicate Grows(was: Inbox, now: Inbox) {
    && now.next == was.next && now.window == was.window && now.credit == was.credit
    && (forall o: nat :: o in was.content ==> o in now.content && now.content[o] == was.content[o])
    && (was.final.Some? ==> now.final == was.final)
  }

  /** Chunks are only used up. */
  predicate Fills(was: Load, now: Load) {
    now.spare <= was.spare && now.maxRanges == was.maxRanges
  }

  /**
   * Up to the time `clock`: flows keep what they have, and records that wait go on waiting until they expire. If
   * nothing was dropped, they all do.
   */
  ghost predicate Onward<F>(ids: map<F, nat>, was: Progress<F>, now: Progress<F>, clock: nat) {
    && was.dropped <= now.dropped && now.flows == was.flows
    && (now.dropped == was.dropped ==> was.pre <= now.pre)
    && Lasts(was.pre, now.pre, clock)
    && forall f :: f in ids ==>
         && f in was.views && f in now.views && Grows(was.views[f], now.views[f])
         && f in was.loads && f in now.loads && Fills(was.loads[f], now.loads[f])
  }

  ghost predicate Lasts(was: seq<PreOpenRecord>, now: seq<PreOpenRecord>, clock: nat) {
    forall r :: r in was && r.expiresAt > clock ==> r in now
  }

  ghost predicate Got(r: Record, i: Inbox) {
    && (forall o: nat :: r.offset <= o < r.offset + |r.data| ==> o in i.content)
    && (r.fin ==> i.final == Some(r.offset + |r.data|))
  }

  /** The record is with the registered flow of its stream; if there is none, it waits for one. */
  ghost predicate Landed<F>(r: Record, ids: map<F, nat>, p: Progress<F>) {
    if r.flowId in p.flows then
      var f := p.flows[r.flowId];
      f in ids && f in p.views && ids[f] == r.flowId && Got(r, p.views[f])
    else exists k :: 0 <= k < |p.pre| && p.pre[k].record == r
  }

  /** At some moment in between the flow had this reason to refuse the record, and the drop was counted. */
  ghost predicate RefusedAs<F>(f: F, r: Record, error: RecoveryError, was: Progress<F>, now: Progress<F>) {
    && was.dropped < now.dropped && f in was.views && f in now.views && f in now.loads
    && exists i: Inbox ::
         Cause(i, now.loads[f], r.offset, r.data, r.fin, error) && Grows(was.views[f], i) && Grows(i, now.views[f])
  }

  ghost predicate Refused<F>(f: F, r: Record, was: Progress<F>, now: Progress<F>) {
    exists error :: RefusedAs(f, r, error, was, now)
  }

  /** What became of a record that a flow was offered. */
  ghost predicate Told<F>(f: F, r: Record, error: Option<RecoveryError>, was: Progress<F>, now: Progress<F>) {
    match error
    case None => f in now.views && Got(r, now.views[f])
    case Some(e) => RefusedAs(f, r, e, was, now)
  }

  /** The record is with this flow, or was refused by it. */
  ghost predicate Offered<F>(f: F, r: Record, ids: map<F, nat>, was: Progress<F>, now: Progress<F>) {
    f in ids && f in now.views && (Got(r, now.views[f]) || Refused(f, r, was, now))
  }

  /**
   * The record is with the registered flow of its stream, which may only have refused it for a reason; if there is
   * none, the record waits and will not expire before `clock`.
   */
  ghost predicate Reached<F>(r: Record, ids: map<F, nat>, was: Progress<F>, now: Progress<F>, clock: nat) {
    if r.flowId in now.flows then
      var f := now.flows[r.flowId]; f in ids && ids[f] == r.flowId && Offered(f, r, ids, was, now)
    else exists w :: w in now.pre && w.record == r && w.expiresAt > clock
  }

  ghost predicate AllReached<F>(records: seq<Record>, ids: map<F, nat>, was: Progress<F>, now: Progress<F>,
                                clock: nat)
  {
    forall k :: 0 <= k < |records| ==> Reached(records[k], ids, was, now, clock)
  }

  /** The record reached the flow that was found for it, or, if none was, its registered flow or its place. */
  ghost predicate Placed(r: PendingRecord, ids: map<FlowReceiver, nat>, was: Progress<FlowReceiver>,
                         now: Progress<FlowReceiver>, clock: nat)
  {
    match r.flow
    case Some(f) => Offered(f, r.record, ids, was, now)
    case None => Reached(r.record, ids, was, now, clock)
  }

  ghost predicate AllPlaced(records: seq<PendingRecord>, ids: map<FlowReceiver, nat>, was: Progress<FlowReceiver>,
                            now: Progress<FlowReceiver>, clock: nat)
  {
    forall k :: 0 <= k < |records| ==> Placed(records[k], ids, was, now, clock)
  }

  // ----- one step

  lemma GrowsOnce(r: Record, was: Inbox, now: Inbox, error: Option<RecoveryError>)
    requires Receives(was, now, r.offset, r.data, r.fin, error)
    ensures Grows(was, now) && (error.None? ==> Got(r, now))
  {
    if error.None? {
      AcceptedAre(was.content, r.offset, r.data);
    }
  }

  lemma OnwardNone<F>(ids: map<F, nat>, p: Progress<F>, clock: nat)
    requires p.views.Keys == ids.Keys == p.loads.Keys
    ensures Onward(ids, p, p, clock)
  {
  }

  /** What a flow makes of a record, and if it refuses the record is counted as dropped. */
  lemma OnwardGiven<F>(ids: map<F, nat>, p: Progress<F>, f: F, r: Record, now: Inbox, load: Load,
                       error: Option<RecoveryError>, clock: nat)
    requires p.views.Keys == ids.Keys == p.loads.Keys && f in ids && Fills(p.loads[f], load)
    requires Receives(p.views[f], now, r.offset, r.data, r.fin, error)
    requires error.Some? ==> Cause(p.views[f], p.loads[f], r.offset, r.data, r.fin, error.value)
    ensures var q := p.(views := p.views[f := now], loads := p.loads[f := load],
                        dropped := p.dropped + if error.Some? then 1 else 0);
      Onward(ids, p, q, clock) && Told(f, r, error, p, q)
  {
    hide Cause, Got, Receives;
    GrowsOnce(r, p.views[f], now, error);
    if error.Some? {
      CauseStays(p.views[f], p.loads[f], load, r, error.value);
      RefusedIsSame(p.views[f], now, r, error);
    }
  }

  lemma ToldIsOffered<F>(f: F, r: Record, error: Option<RecoveryError>, ids: map<F, nat>, was: Progress<F>,
                         now: Progress<F>)
    requires Told(f, r, error, was, now) && f in ids
    ensures Offered(f, r, ids, was, now)
  {
    hide Got;
    if error.Some? {
      assert RefusedAs(f, r, error.value, was, now);
    }
  }

  lemma RefusedIsSame(was: Inbox, now: Inbox, r: Record, error: Option<RecoveryError>)
    requires Receives(was, now, r.offset, r.data, r.fin, error) && error.Some?
    ensures now == was && Grows(was, was)
  {
  }

  lemma CauseStays(i: Inbox, was: Load, now: Load, r: Record, error: RecoveryError)
    requires Cause(i, was, r.offset, r.data, r.fin, error) && Fills(was, now)
    ensures Cause(i, now, r.offset, r.data, r.fin, error)
  {
    hide Receives, RangesFull;
  }

  lemma OnwardKept(ids: map<FlowReceiver, nat>, p: Progress<FlowReceiver>, r: PendingRecord, w: PreOpenRecord,
                   clock: nat)
    requires p.views.Keys == ids.Keys == p.loads.Keys && r.flow.None? && r.record == w.record
    requires r.record.flowId !in p.flows && w.expiresAt > clock
    ensures var q := p.(pre := p.pre + [w]); Onward(ids, p, q, clock) && AllPlaced([r], ids, p, q, clock)
  {
    var q := p.(pre := p.pre + [w]);
    assert q.pre[|p.pre|] == w;
  }

  lemma OnwardPruned<F>(ids: map<F, nat>, p: Progress<F>, now: nat)
    requires p.views.Keys == ids.Keys == p.loads.Keys
    ensures var pre := Unexpired(p.pre, now);
      |pre| <= |p.pre| && Onward(ids, p, p.(pre := pre, dropped := p.dropped + |p.pre| - |pre|), now)
  {
    UnexpiredAll(p.pre, now);
    UnexpiredHas(p.pre, now);
    hide Unexpired;
  }

  lemma {:induction false} UnexpiredAll(records: seq<PreOpenRecord>, now: nat)
    ensures |Unexpired(records, now)| <= |records|
    ensures |Unexpired(records, now)| == |records| ==> Unexpired(records, now) == records
  {
    if records != [] {
      UnexpiredAll(records[1..], now);
    }
  }

  lemma {:induction false} UnexpiredHas(records: seq<PreOpenRecord>, now: nat)
    ensures Lasts(records, Unexpired(records, now), now)
  {
    if records != [] {
      UnexpiredHas(records[1..], now);
      forall r | r in records && r.expiresAt > now ensures r in Unexpired(records, now) {
        if r != records[0] {
          assert r in records[1..];
        }
      }
    }
  }

  lemma OnwardDropped<F>(ids: map<F, nat>, a: Progress<F>, b: Progress<F>, n: nat, clock: nat)
    requires Onward(ids, a, b, clock)
    ensures Onward(ids, a, b.(dropped := b.dropped + n + 1), clock) && a.dropped < b.dropped + n + 1
  {
    hide Grows, Lasts;
  }

  // ----- one step after another

  lemma GrowsTwice(a: Inbox, b: Inbox, c: Inbox)
    requires Grows(a, b) && Grows(b, c)
    ensures Grows(a, c)
  {
  }

  lemma OnwardTwice<F>(ids: map<F, nat>, a: Progress<F>, b: Progress<F>, c: Progress<F>, clock: nat)
    requires Onward(ids, a, b, clock) && Onward(ids, b, c, clock)
    ensures Onward(ids, a, c, clock)
  {
    hide Grows;
    forall f | f in ids ensures Grows(a.views[f], c.views[f]) {
      GrowsTwice(a.views[f], b.views[f], c.views[f]);
    }
  }

  /** Less is said of a later time. */
  lemma OnwardLater<F>(ids: map<F, nat>, a: Progress<F>, b: Progress<F>, clock: nat, later: nat)
    requires Onward(ids, a, b, clock) && clock <= later
    ensures Onward(ids, a, b, later)
  {
    hide Grows, Fills;
  }

  lemma OnwardCounts<F>(ids: map<F, nat>, was: Progress<F>, now: Progress<F>, clock: nat)
    requires Onward(ids, was, now, clock)
    ensures was.dropped <= now.dropped && was.flows == now.flows
  {
  }

  lemma GotStays(r: Record, was: Inbox, now: Inbox)
    requires Got(r, was) && Grows(was, now)
    ensures Got(r, now)
  {
  }

  lemma ToldStays<F>(f: F, r: Record, error: Option<RecoveryError>, ids: map<F, nat>, a: Progress<F>, b: Progress<F>,
                     c: Progress<F>, clock: nat)
    requires f in ids && Told(f, r, error, a, b) && Onward(ids, b, c, clock)
    ensures Told(f, r, error, a, c)
  {
    hide Got, Grows, Cause, Lasts;
    match error
    case None => GotStays(r, b.views[f], c.views[f]);
    case Some(e) =>
      var i: Inbox :| Cause(i, b.loads[f], r.offset, r.data, r.fin, e) && Grows(a.views[f], i) && Grows(i, b.views[f]);
      CauseStays(i, b.loads[f], c.loads[f], r, e);
      GrowsTwice(i, b.views[f], c.views[f]);
  }

  lemma ToldFrom<F>(f: F, r: Record, error: Option<RecoveryError>, ids: map<F, nat>, a: Progress<F>, b: Progress<F>,
                    c: Progress<F>, clock: nat)
    requires f in ids && Onward(ids, a, b, clock) && Told(f, r, error, b, c)
    ensures Told(f, r, error, a, c)
  {
    hide Got, Grows, Cause, Lasts;
    match error
    case None =>
    case Some(e) =>
      var i: Inbox :| Cause(i, c.loads[f], r.offset, r.data, r.fin, e) && Grows(b.views[f], i) && Grows(i, c.views[f]);
      GrowsTwice(a.views[f], b.views[f], i);
  }

  lemma OfferedIsTold<F>(f: F, r: Record, ids: map<F, nat>, was: Progress<F>, now: Progress<F>)
    returns (error: Option<RecoveryError>)
    requires Offered(f, r, ids, was, now)
    ensures f in ids && Told(f, r, error, was, now)
  {
    hide Got, RefusedAs;
    if Got(r, now.views[f]) {
      error := None;
    } else {
      var e :| RefusedAs(f, r, e, was, now);
      error := Some(e);
    }
  }

  lemma OfferedStays<F>(f: F, r: Record, ids: map<F, nat>, a: Progress<F>, b: Progress<F>, c: Progress<F>, clock: nat)
    requires Offered(f, r, ids, a, b) && Onward(ids, b, c, clock)
    ensures Offered(f, r, ids, a, c)
  {
    hide Offered, Told, Onward;
    var error := OfferedIsTold(f, r, ids, a, b);
    ToldStays(f, r, error, ids, a, b, c, clock);
    ToldIsOffered(f, r, error, ids, a, c);
  }

  lemma OfferedFrom<F>(f: F, r: Record, ids: map<F, nat>, a: Progress<F>, b: Progress<F>, c: Progress<F>, clock: nat)
    requires Offered(f, r, ids, b, c) && Onward(ids, a, b, clock)
    ensures Offered(f, r, ids, a, c)
  {
    hide Offered, Told, Onward;
    var error := OfferedIsTold(f, r, ids, b, c);
    ToldFrom(f, r, error, ids, a, b, c, clock);
    ToldIsOffered(f, r, error, ids, a, c);
  }

  lemma ReachedStays<F>(r: Record, ids: map<F, nat>, a: Progress<F>, b: Progress<F>, c: Progress<F>, clock: nat)
    requires Reached(r, ids, a, b, clock) && Onward(ids, b, c, clock)
    ensures Reached(r, ids, a, c, clock)
  {
    hide Offered, Grows;
    if r.flowId in b.flows {
      OfferedStays(b.flows[r.flowId], r, ids, a, b, c, clock);
    }
  }

  lemma AllReachedStays<F>(records: seq<Record>, ids: map<F, nat>, a: Progress<F>, b: Progress<F>, c: Progress<F>,
                           clock: nat)
    requires AllReached(records, ids, a, b, clock) && Onward(ids, b, c, clock)
    ensures AllReached(records, ids, a, c, clock)
  {
    hide Reached, Onward;
    forall k | 0 <= k < |records| ensures Reached(records[k], ids, a, c, clock) {
      ReachedStays(records[k], ids, a, b, c, clock);
    }
  }

  lemma AllReachedFrom<F>(records: seq<Record>, ids: map<F, nat>, a: Progress<F>, b: Progress<F>, c: Progress<F>,
                          clock: nat)
    requires Onward(ids, a, b, clock) && AllReached(records, ids, b, c, clock)
    ensures AllReached(records, ids, a, c, clock)
  {
    hide Offered, Onward;
    forall k | 0 <= k < |records| ensures Reached(records[k], ids, a, c, clock) {
      assert Reached(records[k], ids, b, c, clock);
      if records[k].flowId in c.flows {
        OfferedFrom(c.flows[records[k].flowId], records[k], ids, a, b, c, clock);
      }
    }
  }

  lemma AllPlacedStays(records: seq<PendingRecord>, ids: map<FlowReceiver, nat>, a: Progress<FlowReceiver>,
                       b: Progress<FlowReceiver>, c: Progress<FlowReceiver>, clock: nat)
    requires AllPlaced(records, ids, a, b, clock) && Onward(ids, b, c, clock)
    ensures AllPlaced(records, ids, a, c, clock)
  {
    hide Reached, Offered, Onward;
    forall k | 0 <= k < |records| ensures Placed(records[k], ids, a, c, clock) {
      match records[k].flow
      case Some(f) => OfferedStays(f, records[k].record, ids, a, b, c, clock);
      case None => ReachedStays(records[k].record, ids, a, b, c, clock);
    }
  }

  lemma PlacedFrom(r: PendingRecord, ids: map<FlowReceiver, nat>, a: Progress<FlowReceiver>,
                   b: Progress<FlowReceiver>, c: Progress<FlowReceiver>, clock: nat)
    requires Onward(ids, a, b, clock) && Placed(r, ids, b, c, clock)
    ensures Placed(r, ids, a, c, clock)
  {
    hide Offered, Onward;
    match r.flow
    case Some(f) => OfferedFrom(f, r.record, ids, a, b, c, clock);
    case None =>
      if r.record.flowId in c.flows {
        OfferedFrom(c.flows[r.record.flowId], r.record, ids, a, b, c, clock);
      }
  }

  lemma PlacedNext(records: seq<PendingRecord>, i: nat, ids: map<FlowReceiver, nat>, a: Progress<FlowReceiver>,
                   b: Progress<FlowReceiver>, c: Progress<FlowReceiver>, clock: nat)
    requires i < |records| && AllPlaced(records[..i], ids, a, b, clock) && AllPlaced([records[i]], ids, b, c, clock)
    requires Onward(ids, a, b, clock) && Onward(ids, b, c, clock)
    ensures AllPlaced(records[..i + 1], ids, a, c, clock) && Onward(ids, a, c, clock)
  {
    AllPlacedStays(records[..i], ids, a, b, c, clock);
    OnwardTwice(ids, a, b, c, clock);
    hide Placed, Onward;
    assert Placed([records[i]][0], ids, b, c, clock);
    PlacedFrom(records[i], ids, a, b, c, clock);
    assert records[..i + 1] == records[..i] + [records[i]];
  }

  lemma NonePlaced(ids: map<FlowReceiver, nat>, p: Progress<FlowReceiver>, clock: nat)
    ensures AllPlaced([], ids, p, p, clock)
  {
  }

  lemma PlacedOffered(r: PendingRecord, ids: map<FlowReceiver, nat>, was: Progress<FlowReceiver>,
                      now: Progress<FlowReceiver>, f: FlowReceiver, clock: nat)
    requires Offered(f, r.record, ids, was, now) && ids[f] == r.record.flowId
    requires r.flow == Some(f) || (r.flow.None? && r.record.flowId in now.flows && now.flows[r.record.flowId] == f)
    ensures AllPlaced([r], ids, was, now, clock)
  {
    hide Got, Refused;
  }

  /** A refusal that is not for want of room resets the flow. */
  predicate Blames(error: Option<RecoveryError>) {
    error.Some? && error.value !in {Capacity, RangeCapacity}
  }

  /** The flow that was found for a record, else the registered one of its stream. */
  function Target(r: PendingRecord, flows: map<nat, FlowReceiver>): Option<FlowReceiver> {
    if r.flow.Some? then r.flow
    else if r.record.flowId in flows then Some(flows[r.record.flowId])
    else None
  }

  function Refusals(errors: seq<Option<RecoveryError>>): nat {
    if errors == [] then 0 else Refusals(errors[..|errors| - 1]) + if errors[|errors| - 1].Some? then 1 else 0
  }

  /** What became of one record: `error` is its flow's answer. */
  ghost predicate Judged(r: PendingRecord, error: Option<RecoveryError>, was: Progress<FlowReceiver>,
                         now: Progress<FlowReceiver>)
  {
    match Target(r, now.flows)
    case Some(f) => Told(f, r.record, error, was, now)
    case None => error.None?
  }

  /** The flows that blame one of the records. */
  function Blaming(records: seq<PendingRecord>, errors: seq<Option<RecoveryError>>, flows: map<nat, FlowReceiver>)
    : set<FlowReceiver>
    requires |errors| == |records|
  {
    set k | 0 <= k < |records| && Blames(errors[k]) && Target(records[k], flows).Some?
      :: Target(records[k], flows).value
  }

  /**
   * The flows' answers to a sequence of records: the refusals are what was counted, each has its reason, and exactly
   * the flows that blame a record are to be reset.
   */
  ghost predicate AllJudged(records: seq<PendingRecord>, errors: seq<Option<RecoveryError>>, resets: set<FlowReceiver>,
                            was: Progress<FlowReceiver>, now: Progress<FlowReceiver>)
  {
    && |errors| == |records| && now.dropped == was.dropped + Refusals(errors)
    && (forall k :: 0 <= k < |records| ==> Judged(records[k], errors[k], was, now))
    && resets == Blaming(records, errors, now.flows)
  }

  lemma NoneJudged(p: Progress<FlowReceiver>)
    ensures AllJudged([], [], {}, p, p)
  {
  }

  lemma JudgedStays(r: PendingRecord, error: Option<RecoveryError>, ids: map<FlowReceiver, nat>,
                    a: Progress<FlowReceiver>, b: Progress<FlowReceiver>, c: Progress<FlowReceiver>, clock: nat)
    requires Judged(r, error, a, b) && Onward(ids, b, c, clock)
    requires Target(r, b.flows).Some? ==> Target(r, b.flows).value in ids
    ensures Judged(r, error, a, c)
  {
    OnwardCounts(ids, b, c, clock);
    hide Told, Onward;
    if Target(r, b.flows).Some? {
      ToldStays(Target(r, b.flows).value, r.record, error, ids, a, b, c, clock);
    }
  }

  lemma JudgedFrom(r: PendingRecord, error: Option<RecoveryError>, ids: map<FlowReceiver, nat>,
                   a: Progress<FlowReceiver>, b: Progress<FlowReceiver>, c: Progress<FlowReceiver>, clock: nat)
    requires Onward(ids, a, b, clock) && Judged(r, error, b, c)
    requires Target(r, c.flows).Some? ==> Target(r, c.flows).value in ids
    ensures Judged(r, error, a, c)
  {
    hide Told, Onward;
    if Target(r, c.flows).Some? {
      ToldFrom(Target(r, c.flows).value, r.record, error, ids, a, b, c, clock);
    }
  }

  lemma JudgedNext(records: seq<PendingRecord>, i: nat, errors: seq<Option<RecoveryError>>, resets: set<FlowReceiver>,
                   error: Option<RecoveryError>, reset: Option<FlowReceiver>, ids: map<FlowReceiver, nat>,
                   a: Progress<FlowReceiver>, b: Progress<FlowReceiver>, c: Progress<FlowReceiver>, clock: nat)
    requires i < |records| && AllJudged(records[..i], errors, resets, a, b) && Judged(records[i], error, b, c)
    requires Onward(ids, a, b, clock) && Onward(ids, b, c, clock) && c.flows == b.flows
    requires forall k :: 0 <= k <= i && Target(records[k], c.flows).Some? ==> Target(records[k], c.flows).value in ids
    requires c.dropped == b.dropped + if error.Some? then 1 else 0
    requires reset == if Blames(error) then Target(records[i], c.flows) else None
    ensures AllJudged(records[..i + 1], errors + [error], if reset.Some? then resets + {reset.value} else resets, a, c)
  {
    hide Judged, Onward, Target, Blames, Blaming;
    var all, next := errors + [error], if reset.Some? then resets + {reset.value} else resets;
    assert all[..i] == errors && records[..i + 1][i] == records[i];
    forall k | 0 <= k <= i ensures Judged(records[k], all[k], a, c) {
      if k < i {
        assert records[..i][k] == records[k];
        JudgedStays(records[k], errors[k], ids, a, b, c, clock);
      } else {
        JudgedFrom(records[i], error, ids, a, b, c, clock);
      }
    }
    BlamingNext(records, i, errors, error, c.flows);
  }

  lemma BlamingNext(records: seq<PendingRecord>, i: nat, errors: seq<Option<RecoveryError>>,
                    error: Option<RecoveryError>, flows: map<nat, FlowReceiver>)
    requires i < |records| && |errors| == i
    ensures var f := Target(records[i], flows);
      Blaming(records[..i + 1], errors + [error], flows) ==
        Blaming(records[..i], errors, flows) + if Blames(error) && f.Some? then {f.value} else {}
  {
    hide Target, Blames;
    var all, taken := errors + [error], records[..i + 1];
    assert taken[i] == records[i] && all[i] == error;
    assert forall k :: 0 <= k < i ==> taken[k] == records[..i][k] && all[k] == errors[k];
  }

  /** The flow of every record is the one registered for its stream. */
  ghost predicate Sought(records: seq<PendingRecord>, ids: map<FlowReceiver, nat>, flows: map<nat, FlowReceiver>) {
    forall k :: 0 <= k < |records| ==>
      if records[k].record.flowId in flows then
        var f := flows[records[k].record.flowId];
        records[k].flow == Some(f) && f in ids && ids[f] == records[k].record.flowId
      else records[k].flow.None?
  }

  /** Records that were on their way to the registered flows have reached them. */
  lemma PlacedIsReached(records: seq<PendingRecord>, ids: map<FlowReceiver, nat>, was: Progress<FlowReceiver>,
                        now: Progress<FlowReceiver>, clock: nat)
    requires AllPlaced(records, ids, was, now, clock) && Sought(records, ids, now.flows)
    ensures AllReached(Plain(records), ids, was, now, clock)
  {
    hide Offered;
    forall k | 0 <= k < |records| ensures Reached(Plain(records)[k], ids, was, now, clock) {
      assert Placed(records[k], ids, was, now, clock);
    }
  }

  // ----- without drops

  /** If nothing was dropped, what was reached has landed. */
  lemma ReachedIsLanded<F>(r: Record, ids: map<F, nat>, was: Progress<F>, now: Progress<F>, clock: nat)
    requires Reached(r, ids, was, now, clock) && now.dropped == was.dropped
    ensures Landed(r, ids, now)
  {
    hide Got;
    if r.flowId !in now.flows {
      var w :| w in now.pre && w.record == r && w.expiresAt > clock;
      var k :| 0 <= k < |now.pre| && now.pre[k] == w;
    }
  }

  lemma LandedStays<F>(r: Record, ids: map<F, nat>, a: Progress<F>, b: Progress<F>, clock: nat)
    requires Landed(r, ids, a) && Onward(ids, a, b, clock) && a.dropped == b.dropped
    ensures Landed(r, ids, b)
  {
    hide Got, Grows, Lasts;
    if r.flowId in a.flows {
      GotStays(r, a.views[a.flows[r.flowId]], b.views[a.flows[r.flowId]]);
    } else {
      var k :| 0 <= k < |a.pre| && a.pre[k].record == r;
      assert b.pre[k].record == r;
    }
  }

  // ----- records of a datagram

  /** The records in a datagram, if it is a source at all. */
  ghost function RecordsOf(bytes: Bytes, max: nat): seq<Record> {
    match DecodeSource(bytes, MAX_SOURCE_RECORDS, max)
    case Ok(source) => source.records
    case Err(_) => []
  }

  /** The records themselves, without what they need in transit. */
  function Plain(records: seq<PendingRecord>): seq<Record> {
    seq(|records|, i requires 0 <= i < |records| => records[i].record)
  }

  // ----- records that were waiting

  /** The flow's answer to a record that was waiting for it; none if the record had expired, which was counted. */
  ghost predicate HandedOn<F>(r: PreOpenRecord, error: Option<RecoveryError>, f: F, was: Progress<F>,
                              now: Progress<F>, clock: nat)
  {
    if r.expiresAt <= clock then error.None? && was.dropped < now.dropped else Told(f, r.record, error, was, now)
  }

  ghost predicate AllHandedOn<F>(records: seq<PreOpenRecord>, errors: seq<Option<RecoveryError>>, f: F,
                                 was: Progress<F>, now: Progress<F>, clock: nat)
  {
    |errors| == |records| && forall k :: 0 <= k < |records| ==> HandedOn(records[k], errors[k], f, was, now, clock)
  }

  lemma HandedNext<F>(records: seq<PreOpenRecord>, i: nat, errors: seq<Option<RecoveryError>>,
                      error: Option<RecoveryError>, f: F, ids: map<F, nat>, a: Progress<F>, b: Progress<F>,
                      c: Progress<F>, clock: nat)
    requires f in ids && i < |records| && AllHandedOn(records[..i], errors, f, a, b, clock)
    requires HandedOn(records[i], error, f, b, c, clock)
    requires Onward(ids, a, b, clock) && Onward(ids, b, c, clock)
    ensures AllHandedOn(records[..i + 1], errors + [error], f, a, c, clock) && Onward(ids, a, c, clock)
  {
    OnwardTwice(ids, a, b, c, clock);
    hide Told, Grows, Fills, Lasts;
    forall k | 0 <= k < i + 1 ensures HandedOn(records[k], (errors + [error])[k], f, a, c, clock) {
      if k < i {
        assert HandedOn(records[..i][k], errors[k], f, a, b, clock);
        if records[k].expiresAt > clock {
          ToldStays(f, records[k].record, errors[k], ids, a, b, c, clock);
        }
      } else if records[i].expiresAt > clock {
        ToldFrom(f, records[i].record, error, ids, a, b, c, clock);
      }
    }
  }

  lemma NoneHanded<F>(f: F, p: Progress<F>, clock: nat)
    ensures AllHandedOn([], [], f, p, p, clock)
  {
  }
}
