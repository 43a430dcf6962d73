/** Numbering, queueing and repairing the sources of one connection (src/recovery.rs). */
module SourceWindow {
  import opened Results
  import opened Galois
  import opened Varint
  import opened Rows
  import opened Repair
  import opened SourceCodec
  import opened RepairCodec

  datatype Datagram = SourceGram(symbolId: Id, bytes: Bytes) | RepairGram(repair: RepairDatagram)

  /** The sources in a queue, in order. */
  ghost function SourcesOf(queue: seq<Datagram>): seq<(Id, Bytes)> {
    if queue == [] then []
    else
      var last := queue[|queue| - 1];
      SourcesOf(queue[..|queue| - 1]) + (if last.SourceGram? then [(last.symbolId, last.bytes)] else [])
  }

  lemma {:induction false} SourcesConcat(a: seq<Datagram>, b: seq<Datagram>)
    ensures SourcesOf(a + b) == SourcesOf(a) + SourcesOf(b)
  {
    if b == [] {
      assert a + b == a;
    } else {
      var n := |b| - 1;
      SourcesConcat(a, b[..n]);
      assert (a + b)[..|a + b| - 1] == a + b[..n];
    }
  }

  lemma SourcesOne(d: Datagram)
    ensures SourcesOf([d]) == if d.SourceGram? then [(d.symbolId, d.bytes)] else []
  {
    assert [d][..0] == [];
  }

  /** The sources number `from` to `to` of the connection, under the ids they were given. */
  ghost function Numbered(issued: seq<Bytes>, from: nat, to: nat): seq<(Id, Bytes)>
    requires from <= to <= |issued|
  {
    seq(to - from, k requires 0 <= k < to - from => ((from + k) % U32, issued[from + k]))
  }

  /** x gives the sources number `from` to `to` their bytes. */
  ghost predicate Agrees(x: Assignment, issued: seq<Bytes>, from: nat, to: nat)
    requires from <= to <= |issued|
  {
    forall i :: from <= i < to ==> Mark(i) in x && x[Mark(i)] == issued[i]
  }

  function Mark(i: nat): Id {
    i % U32
  }

  /** A repair over sources `from` to `from + span` of the connection. */
  ghost predicate Covers(issued: seq<Bytes>, r: RepairDatagram, from: nat) {
    && from + r.span <= |issued| && ValidRepair(r) && r.firstSymbolId == Mark(from)
    && forall x :: Agrees(x, issued, from, from + r.span) ==>
      GenuineRepair(x, r.firstSymbolId, r.span, r.repairId, r.seed, r.coded)
  }

  lemma LabelsAgree(x: Assignment, issued: seq<Bytes>, from: nat, to: nat)
    requires from <= to <= |issued| && Agrees(x, issued, from, to)
    ensures Labels(x, Mark(from), issued[from..to])
  {
    hide Mark, SymbolId;
    forall i | 0 <= i < to - from
      ensures SymbolId(Mark(from), i) in x && x[SymbolId(Mark(from), i)] == issued[from..to][i]
    {
      MarkSymbol(from, i);
    }
  }

  lemma MarkSymbol(from: nat, i: nat)
    ensures SymbolId(Mark(from), i) == Mark(from + i)
  {
  }

  lemma CoversLater(issued: seq<Bytes>, more: seq<Bytes>, r: RepairDatagram, from: nat)
    requires Covers(issued, r, from)
    ensures Covers(issued + more, r, from)
  {
    hide GenuineRepair;
    forall x | Agrees(x, issued + more, from, from + r.span)
      ensures GenuineRepair(x, r.firstSymbolId, r.span, r.repairId, r.seed, r.coded)
    {
      assert Agrees(x, issued, from, from + r.span) by {
        forall i | from <= i < from + r.span ensures Mark(i) in x && x[Mark(i)] == issued[i] {
          assert (issued + more)[i] == issued[i];
        }
      }
    }
  }

  ghost predicate AllCovered(issued: seq<Bytes>, repairs: set<RepairDatagram>) {
    forall r :: r in repairs ==> exists from :: Covers(issued, r, from)
  }

  lemma CoveredLater(issued: seq<Bytes>, next: Bytes, repairs: set<RepairDatagram>)
    requires AllCovered(issued, repairs)
    ensures AllCovered(issued + [next], repairs)
  {
    hide Covers;
    forall r | r in repairs ensures exists from :: Covers(issued + [next], r, from) {
      var from :| Covers(issued, r, from);
      CoversLater(issued, [next], r, from);
    }
  }

  /** The records of a connection, one to a source, and the sources that carry them. */
  ghost predicate Packed(issued: seq<Bytes>, records: seq<Record>, max: nat) {
    && |issued| == |records|
    && forall i :: 0 <= i < |records| ==>
         && ValidRecord(records[i]) && issued[i] == EncodeSource(Source(Mark(i), [records[i]]))
         && 0 < |issued[i]| <= max
  }

  lemma PackedNext(issued: seq<Bytes>, records: seq<Record>, max: nat, record: Record)
    requires Packed(issued, records, max) && ValidRecord(record)
    requires |record.data| + SINGLE_SOURCE_MAX_OVERHEAD <= max
    ensures Packed(issued + [EncodeSource(Source(Mark(|issued|), [record]))], records + [record], max)
  {
    hide EncodeSource, ValidRecord, Mark;
    SourceOverhead(Mark(|issued|), record);
  }

  /** A datagram that carries an issued source or is one of the repairs. */
  ghost predicate Drawn(issued: seq<Bytes>, repairs: set<RepairDatagram>, d: Datagram) {
    match d
    case SourceGram(id, bytes) => exists i :: 0 <= i < |issued| && id == Mark(i) && bytes == issued[i]
    case RepairGram(r) => r in repairs
  }

  ghost predicate AllDrawn(issued: seq<Bytes>, repairs: set<RepairDatagram>, queue: seq<Datagram>) {
    forall k :: 0 <= k < |queue| ==> Drawn(issued, repairs, queue[k])
  }

  lemma DrawnLater(issued: seq<Bytes>, repairs: set<RepairDatagram>, issued': seq<Bytes>, repairs': set<RepairDatagram>,
                   queue: seq<Datagram>)
    requires AllDrawn(issued, repairs, queue) && issued <= issued' && repairs <= repairs'
    ensures AllDrawn(issued', repairs', queue)
  {
    hide Mark;
    forall k | 0 <= k < |queue| ensures Drawn(issued', repairs', queue[k]) {
      assert Drawn(issued, repairs, queue[k]);
      if queue[k].SourceGram? {
        var i :| 0 <= i < |issued| && queue[k].symbolId == Mark(i) && queue[k].bytes == issued[i];
        assert issued'[i] == issued[i];
      }
    }
  }

  // What a single record costs on the wire beside its data.
  const SINGLE_SOURCE_MAX_OVERHEAD: nat := (1 + 4 + 1) + (8 + 8 + 1 + 8)

  lemma SourceOverhead(id: Id, record: Record)
    ensures 0 < |EncodeSource(Source(id, [record]))| <= |record.data| + SINGLE_SOURCE_MAX_OVERHEAD
  {
    VarintWidth(record.flowId);
    VarintWidth(record.offset);
    VarintWidth(|record.data|);
    hide EncodeVarint;
    assert EncodeRecords([record]) == EncodeRecord(record) by { assert [record][1..] == []; }
  }

  lemma VarintWidth(v: nat)
    ensures |EncodeVarint(v)| <= 8
  {
  }

  datatype SendResult = Disabled | Full | Queued

  class SourceWindow {
    var pending: seq<Datagram>
    const capacity: nat
    const maxSymbol: nat
    var sending: Option<Datagram>
    var sources: seq<(Id, Bytes)>
    var enabled: bool
    var nextSymbol: Id
    var nextRepair: Id

    /** Every record ever queued, in order, the sources that carry them, and how many of these have left the queue. */
    ghost var records: seq<Record>
    ghost var issued: seq<Bytes>
    ghost var recorded: nat

    /** Every repair ever queued. */
    ghost var repairs: set<RepairDatagram>

    ghost function Queue(): seq<Datagram>
      reads this
    {
      (if sending.Some? then [sending.value] else []) + pending
    }

    ghost predicate Valid()
      reads this
    {
      && nextSymbol == Mark(|issued|) && |pending| <= capacity && maxSymbol <= U16_MAX
      && Packed(issued, records, maxSymbol) && AllCovered(issued, repairs) && AllDrawn(issued, repairs, Queue())
      && (enabled ==> Consecutive())
    }

    /** Window, driver and queue hold consecutive sources, up to the next one to be numbered. */
    ghost predicate Consecutive()
      reads this
    {
      && |sources| <= recorded <= |issued|
      && sources == Numbered(issued, recorded - |sources|, recorded)
      && SourcesOf(Queue()) == Numbered(issued, recorded, |issued|)
    }

    constructor (capacity: nat, maxSymbol: nat, enabled: bool)
      requires maxSymbol <= U16_MAX
      ensures Valid() && issued == [] && records == [] && repairs == {}
      ensures pending == [] && sending == None && sources == [] && recorded == 0 && nextRepair == 0
      ensures this.capacity == capacity && this.maxSymbol == maxSymbol && this.enabled == enabled
    {
      pending, sending, sources, nextSymbol, nextRepair := [], None, [], 0, 0;
      this.capacity, this.maxSymbol, this.enabled := capacity, maxSymbol, enabled;
      issued, records, recorded, repairs := [], [], 0, {};
    }

    /** Numbers a record's source and queues it. */
    method Issue(record: Record)
      requires Valid() && enabled && |pending| < capacity
      requires ValidRecord(record) && |record.data| + SINGLE_SOURCE_MAX_OVERHEAD <= maxSymbol
      modifies this`pending, this`nextSymbol, this`issued, this`records
      ensures var encoded := EncodeSource(Source(Mark(|old(issued)|), [record]));
        && Valid() && issued == old(issued) + [encoded] && records == old(records) + [record]
        && pending == old(pending) + [SourceGram(Mark(|old(issued)|), encoded)]
    {
      hide AllCovered, Numbered, SourcesOf, Mark, Packed, EncodeSource, ValidRecord;
      MarkNext(|issued|);
      var encoded := EncodeSource(Source(nextSymbol, [record]));
      var d := SourceGram(nextSymbol, encoded);
      PackedNext(issued, records, maxSymbol, record);
      CoveredLater(issued, encoded, repairs);
      DrawnLater(issued, repairs, issued + [encoded], repairs, Queue());
      SourcesConcat(Queue(), [d]);
      SourcesOne(d);
      PackedCounts(issued, records, maxSymbol);
      NumberedLater(issued, encoded, recorded, |sources|);
      ghost var was, n := Queue(), |issued|;
      nextSymbol := (nextSymbol + 1) % U32;
      pending, issued, records := pending + [d], issued + [encoded], records + [record];
      assert Queue() == was + [d];
      assert issued[n] == encoded;
    }

    /** src/recovery.rs, `send_source`. The limit on the data is `max_source_payload`. */
    method SendSource(record: Record) returns (result: SendResult)
      requires Valid() && ValidRecord(record) && |record.data| + SINGLE_SOURCE_MAX_OVERHEAD <= maxSymbol
      modifies this`pending, this`nextSymbol, this`issued, this`records
      ensures Valid()
      ensures result == if !enabled then Disabled else if |old(pending)| == capacity then Full else Queued
      ensures !result.Queued? ==> pending == old(pending) && issued == old(issued) && records == old(records)
      ensures result.Queued? ==>
        var encoded := EncodeSource(Source(Mark(|old(issued)|), [record]));
        && issued == old(issued) + [encoded] && records == old(records) + [record]
        && pending == old(pending) + [SourceGram(Mark(|old(issued)|), encoded)]
    {
      if !enabled {
        return Disabled;
      }
      if |pending| == capacity {
        return Full;
      }
      Issue(record);
      return Queued;
    }

    /** src/recovery.rs, `take_datagram`. */
    method TakeDatagram()
      requires Valid() && sending.None?
      modifies this`pending, this`sending
      ensures Valid() && Queue() == old(Queue()) && repairs == old(repairs)
      ensures if old(pending) == [] then sending.None? else sending == Some(old(pending)[0])
    {
      hide Packed, AllCovered, Numbered, SourcesOf, Drawn, Mark;
      if pending != [] {
        ghost var was := Queue();
        sending, pending := Some(pending[0]), pending[1..];
        assert Queue() == was;
      }
    }

    /** src/recovery.rs, `record_sent`; the span limit may have shrunk since the last call. */
    method RecordSent(maxSpan: nat)
      requires Valid() && sending.Some? && maxSpan > 0
      modifies this`sending, this`sources, this`recorded
      ensures Valid() && sending.None? && enabled == old(enabled) && pending == old(pending)
      ensures issued == old(issued) && records == old(records) && repairs == old(repairs)
      ensures if enabled && old(sending).value.SourceGram?
        then recorded == old(recorded) + 1 && sources == Slid(old(sources), old(sending).value, maxSpan)
        else recorded == old(recorded) && sources == old(sources)
    {
      hide AllCovered, Numbered, SourcesOf, Packed, Drawn;
      var d := sending.value;
      assert Queue() == [d] + pending;
      assert AllDrawn(issued, repairs, pending) by {
        forall k | 0 <= k < |pending|
          ensures Drawn(issued, repairs, pending[k])
        {
          assert Queue()[k + 1] == pending[k];
        }
      }
      SourcesConcat([d], pending);
      SourcesOne(d);
      sending := None;
      assert Queue() == pending;
      if d.SourceGram? && enabled {
        RecordedNext(issued, recorded, |sources|, (d.symbolId, d.bytes), SourcesOf(pending));
        NumberedTail(issued, recorded + 1, |sources| + 1);
        recorded := recorded + 1;
        sources := sources + [(d.symbolId, d.bytes)];
        if |sources| > maxSpan {
          sources := sources[1..];
        }
      }
    }

    method QueueRepair(r: RepairDatagram, ghost from: nat)
      requires Valid() && |pending| < capacity && Covers(issued, r, from)
      modifies this`pending, this`repairs
      ensures Valid() && pending == old(pending) + [RepairGram(r)] && repairs == old(repairs) + {r}
    {
      hide Numbered, SourcesOf, AllCovered, Covers, Packed;
      CoveredOne(issued, repairs, r, from);
      var d := RepairGram(r);
      DrawnLater(issued, repairs, issued, repairs + {r}, Queue());
      SourcesConcat(Queue(), [d]);
      SourcesOne(d);
      ghost var was := Queue();
      pending, repairs := pending + [d], repairs + {r};
      assert Queue() == was + [d];
      assert SourcesOf(was) + [] == SourcesOf(was);
    }

    /** How many repairs a call may queue. */
    function Room(limit: nat): nat
      requires |pending| <= capacity
      reads this
    {
      if |sources| < 2 then 0 else Min(limit, capacity - |pending|)
    }

    /**
     * src/recovery.rs, `send_tail_repairs`: as many repairs as asked for and as fit, under consecutive ids, and every
     * one of them codes exactly the newest sources that its header names.
     */
    method SendTailRepairs(limit: nat, maxSpan: nat) returns (sent: Option<nat>)
      requires Valid() && 1 <= maxSpan <= MAX_REPAIR_SPAN
      modifies this`pending, this`nextRepair, this`repairs
      ensures Valid()
      ensures sent == if enabled then Some(old(Room(limit))) else None
      ensures var n := if enabled then old(Room(limit)) else 0;
        && |pending| == |old(pending)| + n && old(pending) <= pending && nextRepair == Mark(old(nextRepair) + n)
      ensures old(repairs) <= repairs
      ensures forall k :: |old(pending)| <= k < |pending| ==>
        Tail(pending[k], issued, recorded, Min(maxSpan, |sources|), Mark(old(nextRepair) + k - |old(pending)|))
    {
      hide SourcesOf, AllCovered, Covers, Numbered, Packed, AllDrawn, Mark;
      MarkSelf(nextRepair);
      if !enabled {
        return None;
      }
      var available := capacity - |pending|;
      var budget := if limit < available then limit else available;
      if budget == 0 || |sources| < 2 {
        return Some(0);
      }
      var span := if maxSpan < |sources| then maxSpan else |sources|;
      ghost var from, was := recorded - span, |pending|;
      WindowIs(issued, recorded, |sources|, span);
      PackedSizes(issued, records, maxSymbol);
      var first, payloads := Payloads(sources[|sources| - span..], issued, from);
      var n := 0;
      while n < budget
        invariant 0 <= n <= budget && Valid() && |pending| == was + n && old(pending) <= pending
        invariant old(repairs) <= repairs && nextRepair == Mark(old(nextRepair) + n)
        invariant forall k :: was <= k < was + n ==>
          Tail(pending[k], issued, recorded, span, Mark(old(nextRepair) + k - was))
      {
        MarkNext(old(nextRepair) + n);
        var r := MakeRepair(first, nextRepair, payloads, issued, from);
        nextRepair := (nextRepair + 1) % U32;
        QueueRepair(r, from);
        n := n + 1;
      }
      return Some(n);
    }

    /** src/recovery.rs, `disable_datagrams`. */
    method Disable()
      requires Valid()
      modifies this`enabled, this`pending, this`sources
      ensures Valid() && !enabled && pending == [] && sources == []
      ensures issued == old(issued) && records == old(records) && repairs == old(repairs)
    {
      hide Packed, AllCovered, Drawn;
      assert sending.Some? ==> Queue()[0] == sending.value;
      enabled, pending, sources := false, [], [];
    }
  }

  /** The window after a source was sent: without its oldest exactly if it would be longer than the span limit. */
  function Slid(sources: seq<(Id, Bytes)>, d: Datagram, maxSpan: nat): (r: seq<(Id, Bytes)>)
    requires d.SourceGram?
    ensures |r| == if |sources| < maxSpan then |sources| + 1 else |sources|
  {
    var all := sources + [(d.symbolId, d.bytes)];
    if |all| > maxSpan then all[1..] else all
  }

  function Min(a: nat, b: nat): nat {
    if a < b then a else b
  }

  /** A repair with this id over the newest sources that have left the queue. */
  ghost predicate Tail(d: Datagram, issued: seq<Bytes>, recorded: nat, span: nat, id: Id) {
    && d.RepairGram? && d.repair.repairId == id && d.repair.span == span
    && span <= recorded && Covers(issued, d.repair, recorded - span)
  }

  lemma PackedSizes(issued: seq<Bytes>, records: seq<Record>, max: nat)
    requires Packed(issued, records, max)
    ensures forall i :: 0 <= i < |issued| ==> 0 < |issued[i]| <= max
  {
    hide EncodeSource, ValidRecord;
  }

  lemma PackedCounts(issued: seq<Bytes>, records: seq<Record>, max: nat)
    requires Packed(issued, records, max)
    ensures |records| == |issued|
  {
  }

  method Payloads(window: seq<(Id, Bytes)>, ghost issued: seq<Bytes>, ghost from: nat)
    returns (first: Id, payloads: seq<Bytes>)
    requires window != [] && from + |window| <= |issued| && window == Numbered(issued, from, from + |window|)
    ensures first == Mark(from) && payloads == issued[from..from + |window|]
  {
    first := window[0].0;
    payloads := seq(|window|, i requires 0 <= i < |window| => window[i].1);
  }

  method MakeRepair(first: Id, repairId: Id, payloads: seq<Bytes>, ghost issued: seq<Bytes>, ghost from: nat)
    returns (r: RepairDatagram)
    requires 1 <= |payloads| <= MAX_REPAIR_SPAN && first == Mark(from)
    requires from + |payloads| <= |issued| && payloads == issued[from..from + |payloads|]
    requires forall i :: 0 <= i < |issued| ==> 0 < |issued[i]| <= U16_MAX
    ensures Covers(issued, r, from) && r.span == |payloads| && r.repairId == repairId
  {
    PayloadSizes(issued, from, payloads);
    hide GenuineRepair, MaxLength;
    var coded := RepairSymbol(first, repairId, first, payloads);
    r := RepairDatagram(repairId, first, |payloads|, |coded.value|, first, coded.value);
    forall x | Agrees(x, issued, from, from + |payloads|)
      ensures GenuineRepair(x, first, |payloads|, repairId, first, coded.value)
    {
      LabelsAgree(x, issued, from, from + |payloads|);
    }
  }

  lemma PayloadSizes(issued: seq<Bytes>, from: nat, payloads: seq<Bytes>)
    requires payloads != [] && from + |payloads| <= |issued| && payloads == issued[from..from + |payloads|]
    requires forall i :: 0 <= i < |issued| ==> 0 < |issued[i]| <= U16_MAX
    ensures 0 < MaxLength(payloads) <= U16_MAX
  {
    assert payloads[0] == issued[from];
    var n := MaxLength(payloads);
    if n > 0 {
      var i :| 0 <= i < |payloads| && |payloads[i]| == n;
      assert payloads[i] == issued[from + i];
    }
  }

  lemma CoveredOne(issued: seq<Bytes>, repairs: set<RepairDatagram>, r: RepairDatagram, from: nat)
    requires AllCovered(issued, repairs) && Covers(issued, r, from)
    ensures AllCovered(issued, repairs + {r})
  {
    hide Covers;
  }

  lemma WindowIs(issued: seq<Bytes>, recorded: nat, count: nat, span: nat)
    requires span <= count <= recorded <= |issued|
    ensures Numbered(issued, recorded - count, recorded)[count - span..] == Numbered(issued, recorded - span, recorded)
  {
  }

  lemma MarkSelf(id: Id)
    ensures Mark(id) == id
  {
  }

  lemma MarkNext(i: nat)
    ensures (Mark(i) + 1) % U32 == Mark(i + 1)
  {
  }

  lemma NumberedLater(issued: seq<Bytes>, next: Bytes, recorded: nat, window: nat)
    requires window <= recorded <= |issued|
    ensures Numbered(issued + [next], recorded - window, recorded) == Numbered(issued, recorded - window, recorded)
    ensures Numbered(issued + [next], recorded, |issued| + 1) ==
        Numbered(issued, recorded, |issued|) + [(Mark(|issued|), next)]
  {
  }

  lemma RecordedNext(issued: seq<Bytes>, recorded: nat, window: nat, head: (Id, Bytes), tail: seq<(Id, Bytes)>)
    requires window <= recorded <= |issued| && Numbered(issued, recorded, |issued|) == [head] + tail
    ensures recorded < |issued| && tail == Numbered(issued, recorded + 1, |issued|)
    ensures Numbered(issued, recorded - window, recorded + 1) == Numbered(issued, recorded - window, recorded) + [head]
  {
    var all := Numbered(issued, recorded, |issued|);
    assert all[0] == head && all[1..] == tail;
  }

  lemma NumberedTail(issued: seq<Bytes>, recorded: nat, window: nat)
    requires 0 < window <= recorded <= |issued|
    ensures Numbered(issued, recorded - window, recorded)[1..] == Numbered(issued, recorded - (window - 1), recorded)
  {
  }
}
