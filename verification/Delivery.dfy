/**
 * From the sender's records to the receiver's flows, over a network that loses, reorders and repeats (src/recovery.rs).
 */
module Delivery {
  import opened Results
  import opened Galois
  import opened Varint
  import opened Rows
  import opened Repair
  import opened Harvest
  import opened Charges
  import opened SourceCodec
  import opened RepairCodec
  import opened SourceWindow
  import opened Budget
  import opened DecoderRuns
  import opened Receiving
  import opened Inflow
  import opened Connection

  /** The symbols of a connection that has not yet reused an id. */
  ghost function Symbols(issued: seq<Bytes>): Assignment
    requires |issued| <= U32
  {
    map i: nat | i < |issued| :: issued[i]
  }

  lemma SymbolsAgree(issued: seq<Bytes>, from: nat, to: nat)
    requires from <= to <= |issued| <= U32
    ensures Agrees(Symbols(issued), issued, from, to)
  {
  }

  lemma RepairIsGenuine(issued: seq<Bytes>, repairs: set<RepairDatagram>, r: RepairDatagram)
    requires |issued| <= U32 && AllCovered(issued, repairs) && r in repairs
    ensures ValidRepair(r) && GenuineRepair(Symbols(issued), r.firstSymbolId, r.span, r.repairId, r.seed, r.coded)
  {
    hide GenuineRepair;
    var from: nat :| Covers(issued, r, from);
    SymbolsAgree(issued, from, from + r.span);
  }

  function WireBytes(d: Datagram): Bytes {
    if d.SourceGram? then d.bytes else EncodeRepair(d.repair)
  }

  lemma PackedDecodes(issued: seq<Bytes>, records: seq<Record>, i: nat, size: nat, max: nat)
    requires Packed(issued, records, size) && i < |issued| <= U32
    ensures issued[i] != [] && issued[i][0] == SOURCE_DATAGRAM
    ensures DecodeSource(issued[i], MAX_SOURCE_RECORDS, max) ==
      if |issued[i]| <= max then Ok(Source(i, [records[i]])) else Err(Limit)
  {
    hide EncodeRecords, ToBytes, ParseBody;
    if |issued[i]| <= max {
      SourceRoundTrip(Source(i, [records[i]]), MAX_SOURCE_RECORDS, max);
    }
  }

  lemma RepairIsNoSource(r: RepairDatagram, max: nat)
    ensures DecodeSource(EncodeRepair(r), MAX_SOURCE_RECORDS, max).Err?
  {
    hide ToBytes;
  }

  lemma SourceIsNoRepair(datagram: Bytes, max: nat)
    requires datagram != [] && datagram[0] == SOURCE_DATAGRAM
    ensures DecodeRepair(datagram, max).Err?
  {
  }

  /** Whatever a source window draws, now or before, is genuine for its own symbols. */
  lemma EverythingGenuine(w: SourceWindow, d: Datagram)
    requires w.Valid() && |w.issued| <= U32 && Drawn(w.issued, w.repairs, d)
    ensures d.SourceGram? ==>
      d.symbolId < |w.issued| && d.bytes == w.issued[d.symbolId] == Symbols(w.issued)[d.symbolId]
    ensures d.RepairGram? ==> ValidRepair(d.repair)
    ensures d.RepairGram? ==>
      GenuineRepair(Symbols(w.issued), d.repair.firstSymbolId, d.repair.span, d.repair.repairId, d.repair.seed,
        d.repair.coded)
  {
    hide GenuineRepair, AllCovered, Packed, AllDrawn, ValidRepair;
    if d.RepairGram? {
      RepairIsGenuine(w.issued, w.repairs, d.repair);
    }
  }

  /** Whatever a source window draws is, on the wire, what a receiver may take at its word. */
  lemma WireIsGenuine(w: SourceWindow, d: Datagram, max: nat)
    requires w.Valid() && |w.issued| <= U32 && Drawn(w.issued, w.repairs, d)
    ensures GenuineDatagram(Symbols(w.issued), max, WireBytes(d))
  {
    hide GenuineRepair, EncodeSource, AllCovered, Packed, Drawn, DecodeSource, DecodeRepair, AllDrawn, EncodeRepair;
    hide ValidRepair;
    EverythingGenuine(w, d);
    if d.SourceGram? {
      PackedDecodes(w.issued, w.records, d.symbolId, w.maxSymbol, max);
      SourceIsNoRepair(d.bytes, max);
    } else {
      RepairRoundTrip(d.repair, max);
      RepairIsNoSource(d.repair, max);
    }
  }

  /** So is everything that waits in its queue. */
  lemma QueueIsGenuine(w: SourceWindow, k: nat, max: nat)
    requires w.Valid() && |w.issued| <= U32 && k < |w.Queue()|
    ensures GenuineDatagram(Symbols(w.issued), max, WireBytes(w.Queue()[k]))
  {
    assert Drawn(w.issued, w.repairs, w.Queue()[k]);
    WireIsGenuine(w, w.Queue()[k], max);
  }

  /** The symbols of a connection are genuine, so a new receiver starts out in agreement with them. */
  lemma PackedIsGenuine(issued: seq<Bytes>, records: seq<Record>, size: nat, max: nat)
    requires Packed(issued, records, size) && |issued| <= U32 && size <= max
    ensures Genuine(Symbols(issued), max)
  {
    hide EncodeSource;
    forall id | id in Symbols(issued) ensures GenuineSource(id, Symbols(issued)[id], max) {
      var s := Source(id, [records[id]]);
      assert ValidSource(s) && issued[id] == EncodeSource(s);
    }
  }

  /** A record that is in the symbols is one of the records. */
  lemma SentInWasSent(issued: seq<Bytes>, records: seq<Record>, size: nat, max: nat, r: Record)
    requires Packed(issued, records, size) && |issued| <= U32 && SentIn(Symbols(issued), max, r)
    ensures r in records
  {
    var id :| id in Symbols(issued) && DecodesTo(Symbols(issued)[id], max, r);
    PackedDecodes(issued, records, id, size, max);
    hide DecodeSource, EncodeSource;
    assert r == records[id];
  }

  /** What is brought to a flow is in one of the records, for the same stream, at the same place. */
  lemma BroughtWasSent(issued: seq<Bytes>, records: seq<Record>, size: nat, max: nat, flowId: nat, o: nat, b: byte)
    requires Packed(issued, records, size) && |issued| <= U32 && Brought(Symbols(issued), max, flowId, o, b)
    ensures exists r :: r in records && r.flowId == flowId && Carries(r, o, b)
  {
    hide Packed, SentIn, Symbols;
    var r :| SentIn(Symbols(issued), max, r) && r.flowId == flowId && Carries(r, o, b);
    SentInWasSent(issued, records, size, max, r);
  }

  /** Whatever the decoder recovers is read as exactly the record that was sent under its id. */
  lemma RecoveredWereSent(issued: seq<Bytes>, records: seq<Record>, size: nat, log: seq<Recovered>, k: nat, max: nat)
    requires Packed(issued, records, size) && |issued| <= U32 && RecoveredTrue(Symbols(issued), log) && k < |log|
    requires |log[k].bytes| <= max
    ensures log[k].symbolId < |records|
    ensures DecodeSource(log[k].bytes, MAX_SOURCE_RECORDS, max) ==
        Ok(Source(log[k].symbolId, [records[log[k].symbolId]]))
  {
    var id := log[k].symbolId;
    assert id in Symbols(issued) && Symbols(issued)[id] == log[k].bytes;
    PackedDecodes(issued, records, id, size, max);
  }

  // ----- a sender's run

  /** What happens at a source window, in any order. */
  datatype Act =
    | Send(record: Record)
    | Take
    | Sent(maxSpan: nat)
    | Repair(limit: nat, maxSpan: nat)
    | Stop

  predicate Allowed(a: Act, maxSymbol: nat) {
    match a
    case Send(record) => ValidRecord(record) && |record.data| + SINGLE_SOURCE_MAX_OVERHEAD <= maxSymbol
    case Sent(maxSpan) => 1 <= maxSpan
    case Repair(_, maxSpan) => 1 <= maxSpan <= MAX_REPAIR_SPAN
    case _ => true
  }

  /** A source window between two acts. */
  datatype View = View(
    pending: seq<Datagram>, sending: Option<Datagram>, enabled: bool, sources: seq<(Id, Bytes)>, issued: seq<Bytes>,
    records: seq<Record>, repairs: set<RepairDatagram>, recorded: nat, nextRepair: Id)

  ghost function ViewOf(w: SourceWindow): View
    reads w
  {
    View(w.pending, w.sending, w.enabled, w.sources, w.issued, w.records, w.repairs, w.recorded, w.nextRepair)
  }

  /** Window and queue hold consecutive sources, up to the next one to be numbered. */
  ghost predicate InStep(v: View) {
    v.enabled ==>
      && |v.sources| <= v.recorded <= |v.issued|
      && v.sources == Numbered(v.issued, v.recorded - |v.sources|, v.recorded)
      && SourcesOf((if v.sending.Some? then [v.sending.value] else []) + v.pending) ==
           Numbered(v.issued, v.recorded, |v.issued|)
  }

  /** What each act does. The driver takes a datagram only after the one before was sent. */
  ghost predicate Performs(a: Act, was: View, now: View, taken: Option<Datagram>, capacity: nat) {
    && (taken.Some? <==> a.Take? && was.sending.None? && was.pending != [])
    && match a
       case Send(record) => Sends(record, was, now, capacity)
       case Take =>
         if taken.None? then now == was
         else taken == Some(was.pending[0]) && now == was.(sending := taken, pending := was.pending[1..])
       case Sent(maxSpan) =>
         if was.sending.None? then now == was
         else if was.enabled && was.sending.value.SourceGram? then
           now == was.(sending := None, sources := Slid(was.sources, was.sending.value, maxSpan),
                       recorded := was.recorded + 1)
         else now == was.(sending := None)
       case Repair(limit, maxSpan) => Repairs(limit, maxSpan, was, now, capacity)
       case Stop => now == was.(enabled := false, pending := [], sources := [])
  }

  ghost predicate Sends(record: Record, was: View, now: View, capacity: nat) {
    if !was.enabled || |was.pending| == capacity then now == was
    else
      var id := Mark(|was.issued|);
      var bytes := EncodeSource(Source(id, [record]));
      now == was.(pending := was.pending + [SourceGram(id, bytes)], issued := was.issued + [bytes],
                  records := was.records + [record])
  }

  ghost predicate Repairs(limit: nat, maxSpan: nat, was: View, now: View, capacity: nat) {
    && was.pending <= now.pending && was.repairs <= now.repairs && |was.pending| <= capacity
    && |now.pending| == |was.pending| + Queueable(limit, was, capacity)
    && now == was.(pending := now.pending, repairs := now.repairs,
                   nextRepair := Mark(was.nextRepair + Queueable(limit, was, capacity)))
    && Tails(was, now, Min(maxSpan, |was.sources|))
  }

  /** How many of `limit` repairs there is room for. */
  function Queueable(limit: nat, v: View, capacity: nat): nat
    requires |v.pending| <= capacity
  {
    if v.enabled && |v.sources| >= 2 then Min(limit, capacity - |v.pending|) else 0
  }

  /** Everything newly queued is a repair over the newest `span` sources. */
  ghost predicate Tails(was: View, now: View, span: nat) {
    forall k :: |was.pending| <= k < |now.pending| ==>
      Tail(now.pending[k], was.issued, was.recorded, span, Mark(was.nextRepair + k - |was.pending|))
  }

  method Perform(w: SourceWindow, a: Act) returns (taken: Option<Datagram>)
    requires w.Valid() && Allowed(a, w.maxSymbol)
    modifies w
    ensures w.Valid() && Performs(a, old(ViewOf(w)), ViewOf(w), taken, w.capacity)
    ensures old(w.issued) <= w.issued && old(w.repairs) <= w.repairs
    ensures w.records == old(w.records) || (a.Send? && w.records == old(w.records) + [a.record])
    ensures taken.Some? ==> Drawn(w.issued, w.repairs, taken.value)
  {
    hide Packed, AllCovered, Numbered, SourcesOf, EncodeSource, ValidRecord, Drawn, Mark, Tail;
    taken := None;
    match a {
      case Send(record) =>
        var result := w.SendSource(record);
      case Take =>
        if w.sending.None? && w.pending != [] {
          w.TakeDatagram();
          taken := w.sending;
          assert Drawn(w.issued, w.repairs, w.Queue()[0]);
          assert w.pending == w.Queue()[1..];
        }
      case Sent(maxSpan) =>
        if w.sending.Some? {
          w.RecordSent(maxSpan);
        }
      case Repair(limit, maxSpan) =>
        var sent := w.SendTailRepairs(limit, maxSpan);
      case Stop =>
        w.Disable();
    }
  }

  /** The datagrams among the outcomes, in order. */
  function Somes(taken: seq<Option<Datagram>>): seq<Datagram> {
    if taken == [] then []
    else
      var n := |taken| - 1;
      Somes(taken[..n]) + if taken[n].Some? then [taken[n].value] else []
  }

  lemma SomesNext(taken: seq<Option<Datagram>>, next: Option<Datagram>)
    ensures Somes(taken + [next]) == Somes(taken) + if next.Some? then [next.value] else []
  {
    assert (taken + [next])[..|taken|] == taken;
  }

  /** A recorded run of a source window, and everything that it put on the wire. */
  ghost predicate Emitted(acts: seq<Act>, views: seq<View>, taken: seq<Option<Datagram>>, wire: seq<Datagram>,
                          capacity: nat)
  {
    && |views| == |acts| + 1 && |taken| == |acts| && wire == Somes(taken)
    && (forall i :: 0 <= i <= |acts| ==> InStep(views[i]))
    && forall i :: 0 <= i < |acts| ==> Performs(acts[i], views[i], views[i + 1], taken[i], capacity)
  }

  /** Any run of a source window. */
  method Emit(w: SourceWindow, acts: seq<Act>)
    returns (wire: seq<Datagram>, ghost views: seq<View>, ghost taken: seq<Option<Datagram>>)
    requires w.Valid() && forall i :: 0 <= i < |acts| ==> Allowed(acts[i], w.maxSymbol)
    modifies w
    ensures Emitted(acts, views, taken, wire, w.capacity)
    ensures views[0] == old(ViewOf(w)) && views[|acts|] == ViewOf(w)
    ensures w.Valid() && AllDrawn(w.issued, w.repairs, wire)
    ensures forall r :: r in w.records ==> r in old(w.records) || Send(r) in acts
  {
    hide Drawn, SourceWindow.Valid, Allowed, Performs, Somes, InStep;
    wire, views, taken := [], [ViewOf(w)], [];
    ValidInStep(w);
    SomesNone();
    var i := 0;
    while i < |acts|
      invariant 0 <= i <= |acts| && w.Valid() && AllDrawn(w.issued, w.repairs, wire)
      invariant |views| == i + 1 && |taken| == i && wire == Somes(taken)
      invariant views[0] == old(ViewOf(w)) && views[i] == ViewOf(w)
      invariant forall k :: 0 <= k <= i ==> InStep(views[k])
      invariant forall k :: 0 <= k < i ==> Performs(acts[k], views[k], views[k + 1], taken[k], w.capacity)
      invariant forall r :: r in w.records ==> r in old(w.records) || Send(r) in acts
    {
      ghost var issued, repairs := w.issued, w.repairs;
      var next := Perform(w, acts[i]);
      ValidInStep(w);
      DrawnLater(issued, repairs, w.issued, w.repairs, wire);
      if next.Some? {
        wire := wire + [next.value];
      }
      SomesNext(taken, next);
      views, taken := views + [ViewOf(w)], taken + [next];
      i := i + 1;
    }
  }

  lemma ValidInStep(w: SourceWindow)
    requires w.Valid()
    ensures InStep(ViewOf(w))
  {
    hide Numbered, SourcesOf, Packed, AllCovered, AllDrawn, Mark;
  }

  lemma EnabledBefore(a: Act, was: View, now: View, taken: Option<Datagram>, capacity: nat)
    requires Performs(a, was, now, taken, capacity) && now.enabled
    ensures was.enabled
  {
    hide Tail, Mark;
  }

  // One act under a constant span limit.
  lemma WindowStep(a: Act, was: View, now: View, taken: Option<Datagram>, capacity: nat, s: nat)
    requires Performs(a, was, now, taken, capacity) && now.enabled && (a.Sent? ==> a.maxSpan == s)
    requires |was.sources| == Min(was.recorded, s)
    ensures |now.sources| == Min(now.recorded, s)
  {
    hide Tail, Mark, EncodeSource;
  }

  lemma {:induction false} WindowLength(acts: seq<Act>, views: seq<View>, taken: seq<Option<Datagram>>,
                                        wire: seq<Datagram>, capacity: nat, s: nat, i: nat)
    requires Emitted(acts, views, taken, wire, capacity) && i <= |acts| && views[i].enabled
    requires forall k :: 0 <= k < |acts| && acts[k].Sent? ==> acts[k].maxSpan == s
    requires |views[0].sources| == Min(views[0].recorded, s)
    ensures |views[i].sources| == Min(views[i].recorded, s)
  {
    hide Performs, InStep, Somes;
    if i != 0 {
      EnabledBefore(acts[i - 1], views[i - 1], views[i], taken[i - 1], capacity);
      WindowLength(acts, views, taken, wire, capacity, s, i - 1);
      WindowStep(acts[i - 1], views[i - 1], views[i], taken[i - 1], capacity, s);
    }
  }

  /**
   * While the span limit is s, the window always holds the newest min(recorded, s) sources, and every repair that is
   * queued codes exactly these.
   */
  lemma NewestSources(acts: seq<Act>, views: seq<View>, taken: seq<Option<Datagram>>, wire: seq<Datagram>,
                      capacity: nat, s: nat, i: nat)
    requires Emitted(acts, views, taken, wire, capacity) && i <= |acts| && views[i].enabled
    requires forall k :: 0 <= k < |acts| ==>
      (acts[k].Sent? ==> acts[k].maxSpan == s) && (acts[k].Repair? ==> acts[k].maxSpan == s)
    requires |views[0].sources| == Min(views[0].recorded, s)
    ensures var v := views[i]; var n := Min(v.recorded, s);
      && v.recorded <= |v.issued| && v.sources == Numbered(v.issued, v.recorded - n, v.recorded)
      && (i < |acts| && acts[i].Repair? ==> Tails(v, views[i + 1], n))
  {
    hide SourcesOf, Numbered, Somes, Tail, Mark, Slid, Sends;
    WindowLength(acts, views, taken, wire, capacity, s, i);
    assert InStep(views[i]);
    if i < |acts| && acts[i].Repair? {
      assert Performs(acts[i], views[i], views[i + 1], taken[i], capacity);
    }
  }

  lemma SomesNone()
    ensures Somes([]) == []
  {
  }

  // ----- the network and the receiver

  /** The network delivers the datagram number `index`, whenever and as often as it likes. */
  datatype Pick = Pick(index: nat, now: nat, oldestUnique: bool, maxSpan: nat)

  /** What the network makes of what was sent. */
  function Picked(wire: seq<Datagram>, picks: seq<Pick>): seq<Arrival> {
    if picks == [] then []
    else
      var n := |picks| - 1;
      var p := picks[n];
      Picked(wire, picks[..n]) +
      if p.index < |wire| then [Arrival(WireBytes(wire[p.index]), p.now, p.oldestUnique, p.maxSpan)] else []
  }

  ghost predicate FromWire(a: Arrival, wire: seq<Datagram>) {
    exists i :: 0 <= i < |wire| && a.datagram == WireBytes(wire[i])
  }

  lemma {:induction false} PickedFromWire(wire: seq<Datagram>, picks: seq<Pick>)
    ensures forall k :: 0 <= k < |Picked(wire, picks)| ==> FromWire(Picked(wire, picks)[k], wire)
  {
    if picks != [] {
      var n := |picks| - 1;
      PickedFromWire(wire, picks[..n]);
      hide Picked;
      PickedLast(wire, picks);
    }
  }

  lemma PickedLast(wire: seq<Datagram>, picks: seq<Pick>)
    requires picks != []
    ensures var n, all := |picks| - 1, Picked(wire, picks);
      var first := Picked(wire, picks[..n]);
      all == first || (|all| == |first| + 1 && all[..|first|] == first && FromWire(all[|first|], wire))
  {
  }

  lemma ArrivalsGenuine(w: SourceWindow, wire: seq<Datagram>, arrivals: seq<Arrival>, max: nat)
    requires w.Valid() && |w.issued| <= U32 && AllDrawn(w.issued, w.repairs, wire)
    requires forall k :: 0 <= k < |arrivals| ==> FromWire(arrivals[k], wire)
    ensures AllGenuineDatagrams(Symbols(w.issued), max, arrivals)
  {
    hide SourceWindow.Valid, Drawn, GenuineDatagram, WireBytes, Symbols;
    forall k | 0 <= k < |arrivals| ensures GenuineDatagram(Symbols(w.issued), max, arrivals[k].datagram) {
      var i :| 0 <= i < |wire| && arrivals[k].datagram == WireBytes(wire[i]);
      WireIsGenuine(w, wire[i], max);
    }
  }

  /** A flow gained nothing but bytes, and perhaps an end, of records that were sent to it. */
  ghost predicate Gained(acts: seq<Act>, flowId: nat, was: Inbox, now: Inbox) {
    && (forall o: nat :: o in was.content ==> o in now.content && now.content[o] == was.content[o])
    && (forall o: nat :: o in now.content && o !in was.content ==>
          exists r: Record :: Send(r) in acts && r.flowId == flowId && Carries(r, o, now.content[o]))
    && (now.final == was.final
        || (now.final.Some? && exists r: Record ::
              Send(r) in acts && r.flowId == flowId && r.fin && now.final.value == r.offset + |r.data|))
  }

  ghost predicate AllGained<F>(acts: seq<Act>, ids: map<F, nat>, was: map<F, Inbox>, now: map<F, Inbox>) {
    forall f :: f in ids ==> f in was && f in now && Gained(acts, ids[f], was[f], now[f])
  }

  lemma FedIsGained(issued: seq<Bytes>, records: seq<Record>, size: nat, acts: seq<Act>, flowId: nat, was: Inbox,
                    now: Inbox, max: nat)
    requires Packed(issued, records, size) && |issued| <= U32 && (forall r :: r in records ==> Send(r) in acts)
    requires Fed(Symbols(issued), max, flowId, was, now)
    ensures Gained(acts, flowId, was, now)
  {
    hide Packed, SentIn, Symbols;
    var x := Symbols(issued);
    forall o: nat | o in now.content && o !in was.content
      ensures exists r: Record :: Send(r) in acts && r.flowId == flowId && Carries(r, o, now.content[o])
    {
      BroughtWasSent(issued, records, size, max, flowId, o, now.content[o]);
    }
    if now.final != was.final {
      var r :| SentIn(x, max, r) && r.flowId == flowId && r.fin && now.final.value == r.offset + |r.data|;
      SentInWasSent(issued, records, size, max, r);
    }
  }

  lemma AllFedIsGained<F>(issued: seq<Bytes>, records: seq<Record>, size: nat, acts: seq<Act>, ids: map<F, nat>,
                          was: map<F, Inbox>, now: map<F, Inbox>, max: nat)
    requires Packed(issued, records, size) && |issued| <= U32 && (forall r :: r in records ==> Send(r) in acts)
    requires AllFed(Symbols(issued), max, ids, was, now)
    ensures AllGained(acts, ids, was, now)
  {
    hide Packed, Symbols, Fed, Gained;
    forall f | f in ids ensures f in was && f in now && Gained(acts, ids[f], was[f], now[f]) {
      FedIsGained(issued, records, size, acts, ids[f], was[f], now[f], max);
    }
  }

  /** Whatever could be afforded was taken. */
  ghost predicate AllTaken<F>(arrivals: seq<Arrival>, snaps: seq<Snapshot<F>>, reports: seq<Report>, l: Limits)
    requires |reports| == |arrivals| && |snaps| == |arrivals| + 1
  {
    forall i :: 0 <= i < |arrivals| && Affords(arrivals[i], snaps[i], l) ==>
      !reports[i].refused && Taken(arrivals[i], snaps[i].moment, snaps[i + 1].moment, reports[i], l)
  }

  /** Whatever part of what a window sent arrives, each flow gains only what was sent to it. */
  method Arrive(w: SourceWindow, ghost acts: seq<Act>, ghost wire: seq<Datagram>, arrivals: seq<Arrival>,
                c: ConnectionRecovery, ghost rest: multiset<Charge>, ghost promised: nat)
    returns (ghost snaps: seq<Snapshot<FlowReceiver>>, ghost reports: seq<Report>)
    requires w.Valid() && AllDrawn(w.issued, w.repairs, wire) && (forall r :: r in w.records ==> Send(r) in acts)
    requires forall k :: 0 <= k < |arrivals| ==> FromWire(arrivals[k], wire)
    requires c.Valid(rest, promised) && w.maxSymbol <= c.decoder.maxBytes
    requires forall x :: Genuine(x, c.decoder.maxBytes) ==> c.Truthful(x)
    modifies c, c.budget, c.decoder, c.Objects()
    ensures c.Valid(rest, promised) && c.ids == old(c.ids)
    ensures |reports| == |arrivals| && |snaps| == |arrivals| + 1 && snaps[0] == old(c.Snap())
    ensures snaps[|arrivals|] == c.Snap()
    ensures forall i :: 0 <= i < |arrivals| ==>
      Served(arrivals[i], c.ids, snaps[i], snaps[i + 1], reports[i], c.Bounds())
    ensures |w.issued| <= U32 ==> AllGained(acts, c.ids, old(c.Views()), c.Views())
    ensures |w.issued| <= U32 ==> AllTaken(arrivals, snaps, reports, c.Bounds())
  {
    hide Affords, Taken, FromWire, SourceWindow.Valid, ConnectionRecovery.Valid, ConnectionRecovery.Truthful;
    hide ConnectionRecovery.Objects, ConnectionRecovery.Views, Genuine, AllFed, AllGained, AllDrawn;
    hide AllGenuineDatagrams, Served, Onward, Steady, Symbols, Packed;
    NotOfConnection(w, c);
    ghost var x := if |w.issued| <= U32 then Symbols(w.issued) else map[];
    ghost var max, issued, records := c.decoder.maxBytes, w.issued, w.records;
    if |issued| <= U32 {
      WindowIsGenuine(w, max);
      ArrivalsGenuine(w, wire, arrivals, max);
    }
    WindowIsPacked(w);
    snaps, reports := c.ReceiveAll(arrivals, rest, promised, x);
    if |issued| <= U32 {
      AllFedIsGained(issued, records, w.maxSymbol, acts, c.ids, old(c.Views()), c.Views(), max);
    }
  }

  /**
   * From one end to the other: any run of a sender's window, any choice by the network of what arrives, in whatever
   * order and however often, at a receiver that starts in agreement with every sender. As long as no symbol id is
   * reused, what each flow gains by it was sent to that flow: the same stream, the same place, the same byte, and the
   * same end. Recovered or not makes no difference. And every arrival is served: its records and those of all that it
   * recovered reached their flows or wait for them, unless it was refused, was a repeat or found no row left; and
   * whatever could be afforded was taken.
   */
  method Transmit(w: SourceWindow, acts: seq<Act>, c: ConnectionRecovery, picks: seq<Pick>,
                  ghost rest: multiset<Charge>, ghost promised: nat)
    returns (wire: seq<Datagram>, ghost views: seq<View>, ghost taken: seq<Option<Datagram>>,
             ghost snaps: seq<Snapshot<FlowReceiver>>, ghost reports: seq<Report>)
    requires w.Valid() && w.records == [] && forall i :: 0 <= i < |acts| ==> Allowed(acts[i], w.maxSymbol)
    requires c.Valid(rest, promised) && w.maxSymbol <= c.decoder.maxBytes
    requires forall x :: Genuine(x, c.decoder.maxBytes) ==> c.Truthful(x)
    modifies w, c, c.budget, c.decoder, c.Objects()
    ensures w.Valid() && c.Valid(rest, promised) && c.ids == old(c.ids) && AllDrawn(w.issued, w.repairs, wire)
    ensures Emitted(acts, views, taken, wire, w.capacity)
    ensures views[0] == old(ViewOf(w)) && views[|acts|] == ViewOf(w)
    ensures var arrivals := Picked(wire, picks);
      && |reports| == |arrivals| && |snaps| == |arrivals| + 1
      && snaps[0] == old(c.Snap()) && snaps[|arrivals|] == c.Snap()
      && forall i :: 0 <= i < |arrivals| ==>
           Served(arrivals[i], c.ids, snaps[i], snaps[i + 1], reports[i], c.Bounds())
    ensures |w.issued| <= U32 ==> AllGained(acts, c.ids, old(c.Views()), c.Views())
    ensures |w.issued| <= U32 ==> AllTaken(Picked(wire, picks), snaps, reports, c.Bounds())
  {
    hide FromWire, SourceWindow.Valid, ConnectionRecovery.Valid, ConnectionRecovery.Truthful;
    hide ConnectionRecovery.Views, AllTaken, Genuine, Allowed, AllDrawn, AllGained, Picked, Served;
    hide ConnectionRecovery.State, Performs, Somes;
    NotOfConnection(w, c);
    wire, views, taken := Emit(w, acts);
    assert c.Valid(rest, promised) && c.Views() == old(c.Views()) && c.Snap() == old(c.Snap());
    PickedFromWire(wire, picks);
    snaps, reports := Arrive(w, acts, wire, Picked(wire, picks), c, rest, promised);
  }

  lemma WindowIsPacked(w: SourceWindow)
    requires w.Valid()
    ensures Packed(w.issued, w.records, w.maxSymbol)
  {
  }

  lemma NotOfConnection(w: SourceWindow, c: ConnectionRecovery)
    ensures w !in c.Objects() && w !in {c, c.budget, c.decoder}
  {
  }

  lemma WindowIsGenuine(w: SourceWindow, max: nat)
    requires w.Valid() && |w.issued| <= U32 && w.maxSymbol <= max
    ensures Genuine(Symbols(w.issued), max)
  {
    hide Packed, AllCovered, AllDrawn;
    PackedIsGenuine(w.issued, w.records, w.maxSymbol, max);
  }
}
