/** The receiving half of a flow: reassembly, acknowledgment and credit kept in step (src/flow.rs). */
module Receiving {
  import opened Results
  import opened Galois
  import opened Varint
  import opened AckRanges
  import opened Chunks
  import opened Gaps
  import opened Budget
  import opened Charges
  import opened Reassembler
  import Replay
  import Intake
  import opened Counting

  /** What the receiving half stands for: the first accepted byte at every offset, and how far it was read. */
  datatype Inbox = Inbox(content: map<nat, byte>, next: nat, window: nat, credit: nat, final: Option<nat>)

  ghost predicate Consistent(i: Inbox) {
    && i.next <= MAX_WIRE_OFFSET && i.window <= MAX_WIRE_OFFSET
    && i.credit == Smaller(i.next + i.window, MAX_WIRE_OFFSET)
    && (forall o: nat :: o < i.next ==> o in i.content)
    && (forall o: nat :: o in i.content ==> o < i.credit)
    && (i.final.Some? ==> i.next <= i.final.value <= i.credit && forall o: nat :: o in i.content ==> o < i.final.value)
  }

  /** The outcomes that the protocol alone allows when a record arrives. */
  ghost predicate Receives(i: Inbox, i': Inbox, offset: nat, data: Bytes, fin: bool, error: Option<RecoveryError>) {
    var end := offset + |data|;
    && (error.Some? ==> i' == i)
    && (error == Some(OffsetOverflow) ==> end > MAX_U64)
    && (error == Some(FlowControl) ==> end > i.credit)
    && (error == Some(InvalidRange) ==> data == [])
    && (error == Some(FinalOffset) ==> !Ends(i, end, fin))
    && (error == Some(ContradictoryOverlap) ==> exists o: nat :: Conflict(i.content, offset, data, o))
    && (error.None? ==> data != [] && end <= i.credit && Ends(i, end, fin))
    && (error.None? ==>
         i' == i.(content := Accept(i.content, offset, data), final := if fin then Some(end) else i.final))
  }

  /** A record that ends at `end` respects the final offset, and may itself fix it. */
  ghost predicate Ends(i: Inbox, end: nat, fin: bool) {
    && (i.final.Some? ==> end <= i.final.value)
    && (fin ==>
          && i.next <= end && (i.final.Some? ==> i.final.value == end)
          && forall o: nat :: end <= o ==> o !in i.content)
  }

  lemma ConsistentBounds(i: Inbox)
    requires Consistent(i)
    ensures i.credit <= MAX_WIRE_OFFSET && i.next <= i.credit <= i.next + i.window
  {
  }

  /** An arrival keeps the receiving half consistent, whatever its outcome. */
  lemma ConsistentStays(i: Inbox, i': Inbox, offset: nat, data: Bytes, fin: bool, error: Option<RecoveryError>)
    requires Consistent(i) && Receives(i, i', offset, data, fin, error)
    ensures Consistent(i')
  {
    if error.None? {
      AcceptedAre(i.content, offset, data);
      hide Accept;
    }
  }

  lemma AcceptedAre(content: map<nat, byte>, offset: nat, data: Bytes)
    ensures forall o: nat :: o in Accept(content, offset, data) <==> o in content || offset <= o < offset + |data|
  {
  }

  /** The reassembler's reasons for refusing a record inside the window, seen from outside. */
  lemma FaultExplained(chunks: seq<BufferedChunk>, i: Inbox, offset: nat, data: Bytes, fin: bool)
    requires Coherent(chunks, i.content, i.next) && offset + |data| <= MAX_WIRE_OFFSET && data != []
    ensures var fault := Fault(chunks, i.content, i.next, i.final, offset, data, fin);
      && (fault == Some(FinalOffset) ==> !Ends(i, offset + |data|, fin))
      && (fault == Some(ContradictoryOverlap) ==> exists o: nat :: Conflict(i.content, offset, data, o))
      && (fault.None? ==> Ends(i, offset + |data|, fin))
      && (fault.None? ==> !Clashes(chunks, i.content, offset, data, offset, offset + |data|))
      && (fault.Some? ==> fault.value in {FinalOffset, ContradictoryOverlap})
  {
    PassedIs(chunks, i.content, i.next, offset + |data|);
    hide Coherent, Passed;
  }

  /** Inside the credit that was given, the reassembler's byte limit can never be exceeded. */
  lemma ByteLimitHolds(chunks: seq<BufferedChunk>, i: Inbox, offset: nat, end: nat, gaps: seq<Range>)
    requires Consistent(i) && Coherent(chunks, i.content, i.next) && offset <= end <= i.credit
    requires if Larger(offset, i.next) < end then Missing(chunks, Larger(offset, i.next), end, gaps) else gaps == []
    ensures InOrder(gaps, 0, MAX_WIRE_OFFSET)
    ensures UnreadSize(chunks, i.next) + Length(gaps) <= i.window
  {
    var low := Larger(offset, i.next);
    forall k | 0 <= k < |chunks| ensures chunks[k].End() <= i.credit {
      assert Holds(chunks[k], chunks[k].End() - 1);
      assert Has(chunks, chunks[k].End() - 1);
      assert chunks[k].End() - 1 in i.content;
    }
    hide Has, InRanges;
    if low < end {
      WindowHolds(chunks, i.next, low, end, i.credit, gaps);
    } else {
      UnreadFits(chunks, i.next, i.credit);
    }
  }

  datatype ReadResult = Broken | Count(n: nat) | Wait

  function Consumed(i: Inbox, n: nat): Inbox {
    i.(next := i.next + n,
       credit := if n == 0 then i.credit else Larger(i.credit, Smaller(i.next + n + i.window, MAX_WIRE_OFFSET)))
  }

  /** The outcomes when the peer announces where its stream ends. */
  ghost predicate Finishes(i: Inbox, i': Inbox, offset: nat, error: Option<RecoveryError>) {
    && (error.Some? ==> i' == i && error.value in {FlowControl, RecoveryError.FinalOffset})
    && (error == Some(FlowControl) <==> offset > i.credit)
    && (error == Some(RecoveryError.FinalOffset) ==> !Ends(i, offset, true))
    && (error.None? ==> Ends(i, offset, true) && i' == i.(final := Some(offset)))
  }

  lemma ReadFacts(chunks: seq<BufferedChunk>, i: Inbox)
    requires Consistent(i) && Coherent(chunks, i.content, i.next)
    ensures forall o: nat :: o in i.content ==> o < MAX_WIRE_OFFSET
  {
  }

  lemma StaysBounded(chunks: seq<BufferedChunk>, content: map<nat, byte>, next: nat, finalOffset: Option<nat>)
    requires Coherent(chunks, content, next) && Final(chunks, next, finalOffset)
    ensures next <= MAX_WIRE_OFFSET && (forall o: nat :: o < next ==> o in content)
    ensures finalOffset.Some? ==> next <= finalOffset.value
  {
  }

  // New bytes are one gap, which adds one chunk.
  lemma EightFit(chunks: seq<BufferedChunk>, i: Inbox, offset: nat, end: nat, gaps: seq<Range>)
    requires Coherent(chunks, i.content, i.next) && offset <= end <= MAX_WIRE_OFFSET
    requires if Larger(offset, i.next) < end then Missing(chunks, Larger(offset, i.next), end, gaps) else gaps == []
    ensures Intake.Unseen(i.content, offset, end) && gaps != [] ==>
      gaps == [Range(offset, end)] && Larger(offset, i.next) == offset
    ensures gaps != [] ==> exists o: nat :: offset <= o < end && o !in i.content
  {
    if gaps != [] {
      var o := gaps[0].start;
      assert Inside(gaps[0], o) && InRanges(gaps, o);
    }
    if Intake.Unseen(i.content, offset, end) && Larger(offset, i.next) < end {
      Intake.UnseenReaches(chunks, i.content, i.next, offset, end);
      Intake.UnseenIsWhole(chunks, i.content, i.next, offset, end, gaps);
    }
  }

  /** What bounds a flow beside its window: the chunks that are still free, and the most gapped ranges. */
  datatype Load = Load(spare: int, maxRanges: nat)

  ghost predicate Shows(contiguous: nat, ranges: seq<Range>, content: map<nat, byte>) {
    forall o: nat :: Acked(contiguous, ranges, o) <==> o in content
  }

  /** The list of received ranges is full and the record is next to none of them. */
  ghost predicate RangesFull(content: map<nat, byte>, maxRanges: nat, r: Range) {
    exists c: nat, ranges ::
      Canonical(c, ranges) && Shows(c, ranges, content) && Crowded(c, ranges, maxRanges, r)
  }

  /**
   * Why a flow may refuse a record that is paid for: the protocol forbids it; or else its ranges are full, or some of
   * its bytes are new and there is no chunk for them or they have to be copied out.
   */
  ghost predicate Cause(i: Inbox, load: Load, offset: nat, data: Bytes, fin: bool, error: RecoveryError) {
    var end := offset + |data|;
    && Receives(i, i, offset, data, fin, Some(error))
    && (error in {RangeCapacity, Capacity} ==> data != [] && end <= i.credit)
    && (error == RangeCapacity ==> RangesFull(i.content, load.maxRanges, Range(offset, end)))
    && (error == Capacity ==>
          && Ends(i, end, fin)
          && (exists o: nat :: offset <= o < end && o !in i.content)
          && (load.spare <= 0 || !Intake.Unseen(i.content, offset, end)))
  }

  /** The acknowledgments owed after a record or an end: one more, saturating, if it was accepted. */
  function AcksOwed(before: nat, error: Option<RecoveryError>): nat {
    if error.Some? then before else Smaller(before + 1, MAX_U32)
  }

  class FlowReceiver {
    const receive: Reassembler
    const received: AckRanges
    const receiveWindow: nat
    var receiveFinalOffset: Option<nat>
    var maxReceiveOffset: nat
    var creditDirty: bool
    var ackPending: nat
    var error: bool

    ghost function View(): Inbox
      reads this, receive
    {
      Inbox(receive.content, receive.nextOffset, receiveWindow, maxReceiveOffset, receive.finalOffset)
    }

    ghost function Burden(): Load
      reads this, receive, received
    {
      Load(receive.maxChunks - |receive.chunks|, received.maxRanges)
    }

    /** Exactly the accepted offsets are acknowledged, so nothing acknowledged can be missing. */
    ghost predicate Acknowledges()
      reads this, receive, received
    {
      forall o: nat :: Acked(received.contiguous, received.ranges, o) <==> o in receive.content
    }

    ghost predicate Valid()
      reads this, receive, receive.budget, received
    {
      && receive.Valid() && received.Valid() && Acknowledges() && Consistent(View())
      && receive.maxBytes == receiveWindow && receiveFinalOffset == receive.finalOffset
      && ackPending <= MAX_U32
    }

    /** What `Valid` says about the flow alone, without the budget it shares. */
    ghost predicate Sound()
      reads this, receive, received
    {
      && receive.Sound() && received.Valid() && Acknowledges() && Consistent(View())
      && receive.maxBytes == receiveWindow && receiveFinalOffset == receive.finalOffset
      && ackPending <= MAX_U32
    }

    lemma ValidIs()
      ensures Valid() <==> Sound() && receive.budget.Valid() && Owned(receive.budget.ledger, receive.chunks)
    {
      hide Coherent, Final, Prompt, UnreadSize, Owned, Consistent, Canonical;
    }

    constructor (window: nat, budget: MemoryBudget, maxRanges: nat)
      requires budget.Valid() && window <= MAX_WIRE_OFFSET
      ensures Valid() && View() == Inbox(map[], 0, window, window, None) && !error
      ensures fresh(receive) && fresh(received) && receive.budget == budget && received.maxRanges == maxRanges
      ensures receive.Rest() == budget.ledger && creditDirty && ackPending == 0
      ensures receive.chunks == [] && receive.maxBytes == window && Replay.FewestChunks(window, receive.maxChunks)
    {
      receive := new Reassembler(window, budget);
      received := new AckRanges(maxRanges);
      receiveWindow, maxReceiveOffset, receiveFinalOffset := window, window, None;
      creditDirty, ackPending, error := true, 0, false;
    }

    lemma RangesShown(offset: nat, end: nat)
      requires Valid()
      ensures Crowded(received.contiguous, received.ranges, received.maxRanges, Range(offset, end)) ==>
        RangesFull(View().content, Burden().maxRanges, Range(offset, end))
    {
      hide Coherent, Final, Prompt, UnreadSize, Owned, Consistent, Canonical, Crowded;
      assert Shows(received.contiguous, received.ranges, View().content);
      assert received.Valid();
    }

    /** Books a record that the reassembler has just stored. */
    method Arrived(offset: nat, data: Bytes, fin: bool, ghost was: Inbox)
      requires receive.Valid() && received.Valid() && Consistent(was)
      requires forall o: nat :: Acked(received.contiguous, received.ranges, o) <==> o in was.content
      requires Validate(received.contiguous, received.ranges, received.maxRanges, Range(offset, offset + |data|)).None?
      requires Receives(was, View(), offset, data, fin, None)
      requires receive.maxBytes == receiveWindow && receiveFinalOffset == was.final && ackPending <= MAX_U32
      modifies this`receiveFinalOffset, this`ackPending, received
      ensures Valid() && View() == old(View()) && ackPending == AcksOwed(old(ackPending), None)
    {
      hide Accept, Canonical;
      var end := offset + |data|;
      if fin {
        receiveFinalOffset := Some(end);
      }
      ghost var contiguous, ranges := received.contiguous, received.ranges;
      var failed := received.Insert(Range(offset, end));
      assert failed.None?;
      ackPending := Smaller(ackPending + 1, MAX_U32);
      ConsistentStays(was, View(), offset, data, fin, None);
      AcceptedAre(was.content, offset, data);
    }

    /** src/flow.rs, `insert_bytes_with_reservation` for a record that came with its reservation. */
    method InsertPrecharged(offset: nat, data: Bytes, fin: bool, charge: Charge)
      returns (error: Option<RecoveryError>, ghost gaps: seq<Range>)
      requires Valid() && receive.budget.Holds(charge) && charge.token !in Tokens(receive.chunks)
      modifies this, receive, receive.budget, received
      ensures Valid() && receive.Rest() == old(receive.Rest()) - {charge.token}
      ensures Receives(old(View()), View(), offset, data, fin, error)
      ensures error.Some? ==> received.contiguous == old(received.contiguous) && received.ranges == old(received.ranges)
      ensures error.None? ==> !Clashes(old(receive.chunks), old(View().content), offset, data, offset, offset + |data|)
      ensures creditDirty == old(creditDirty) && ackPending == AcksOwed(old(ackPending), error)
      ensures error == Some(RangeCapacity) <==>
        && 0 < |data| && offset + |data| <= old(View().credit)
        && Crowded(old(received.contiguous), old(received.ranges), received.maxRanges, Range(offset, offset + |data|))
      ensures error == Some(Capacity) && |data| <= charge.bytes ==>
        && InOrder(gaps, 0, MAX_WIRE_OFFSET)
        && (|old(receive.chunks)| + |gaps| > receive.maxChunks
            || Starved(receive.budget.limit - old(receive.budget.used), gaps, Larger(offset, old(receive.nextOffset)),
                 offset + |data|, 0))
      ensures Intake.Unseen(old(View().content), offset, offset + |data|) && |data| <= charge.bytes ==>
        |old(receive.chunks)| < 8 ==> error != Some(Capacity)
      ensures error.Some? && |data| <= charge.bytes ==>
        Cause(old(View()), old(Burden()), offset, data, fin, error.value)
      ensures Burden().spare <= old(Burden()).spare && Burden().maxRanges == old(Burden()).maxRanges
    {
      hide Accept, Fault, Coherent, Final, Prompt, UnreadSize, Owned, Consistent, Canonical, Ends, Missing, Others;
      hide Tokens, Crowded, Intake.Unseen, RangesFull, Clashes;
      var end := offset + |data|;
      gaps := [];
      ghost var was := View();
      ConsistentBounds(was);
      if end > MAX_U64 || end > maxReceiveOffset {
        receive.DropIncoming(charge);
        return Some(if end > MAX_U64 then OffsetOverflow else FlowControl), gaps;
      }
      ValidateIs(received.contiguous, received.ranges, received.maxRanges, Range(offset, end));
      var refused := Validate(received.contiguous, received.ranges, received.maxRanges, Range(offset, end));
      RangesShown(offset, end);
      if refused.Some? {
        receive.DropIncoming(charge);
        return refused, gaps;
      }
      error, gaps := InsertChecked(offset, data, fin, charge);
    }

    /** The rest of it, for a record within the credit for which there is a range. */
    method InsertChecked(offset: nat, data: Bytes, fin: bool, charge: Charge)
      returns (error: Option<RecoveryError>, ghost gaps: seq<Range>)
      requires Valid() && receive.budget.Holds(charge) && charge.token !in Tokens(receive.chunks)
      requires offset + |data| <= maxReceiveOffset
      requires Validate(received.contiguous, received.ranges, received.maxRanges, Range(offset, offset + |data|)).None?
      modifies this, receive, receive.budget, received
      ensures Valid() && receive.Rest() == old(receive.Rest()) - {charge.token}
      ensures Receives(old(View()), View(), offset, data, fin, error) && error != Some(RangeCapacity)
      ensures error.Some? ==> received.contiguous == old(received.contiguous) && received.ranges == old(received.ranges)
      ensures error.None? ==> !Clashes(old(receive.chunks), old(View().content), offset, data, offset, offset + |data|)
      ensures creditDirty == old(creditDirty) && ackPending == AcksOwed(old(ackPending), error)
      ensures error == Some(Capacity) && |data| <= charge.bytes ==>
        && InOrder(gaps, 0, MAX_WIRE_OFFSET)
        && (|old(receive.chunks)| + |gaps| > receive.maxChunks
            || Starved(receive.budget.limit - old(receive.budget.used), gaps, Larger(offset, old(receive.nextOffset)),
                 offset + |data|, 0))
        && Ends(old(View()), offset + |data|, fin)
        && (exists o: nat :: offset <= o < offset + |data| && o !in old(View().content))
        && (Intake.Unseen(old(View().content), offset, offset + |data|) ==> old(Burden()).spare <= 0)
      ensures Burden().spare <= old(Burden()).spare && Burden().maxRanges == old(Burden()).maxRanges
    {
      hide Accept, Fault, Coherent, Final, Prompt, UnreadSize, Owned, Consistent, Canonical, Ends, Missing, Others;
      hide Tokens, Intake.Unseen, Clashes;
      ghost var was, chunks, end := View(), receive.chunks, offset + |data|;
      ConsistentBounds(was);
      FaultExplained(chunks, was, offset, data, fin);
      error, gaps := receive.Insert(offset, data, fin, charge, true);
      if error.None? {
        Arrived(offset, data, fin, was);
      } else if error == Some(Capacity) && |data| <= charge.bytes {
        ByteLimitHolds(chunks, was, offset, end, gaps);
        EightFit(chunks, was, offset, end, gaps);
      }
    }

    /** src/flow.rs, `insert_bytes_with_reservation` for data from the control stream. */
    method InsertBytes(offset: nat, data: Bytes, fin: bool)
      returns (error: Option<RecoveryError>, ghost gaps: seq<Range>)
      requires Valid()
      modifies this, receive, receive.budget, received
      ensures Valid() && receive.Rest() == old(receive.Rest())
      ensures Receives(old(View()), View(), offset, data, fin, error)
      ensures error.Some? ==> received.contiguous == old(received.contiguous) && received.ranges == old(received.ranges)
      ensures error.None? ==> !Clashes(old(receive.chunks), old(View().content), offset, data, offset, offset + |data|)
      ensures creditDirty == old(creditDirty) && ackPending == AcksOwed(old(ackPending), error)
      ensures error == Some(RangeCapacity) <==>
        && 0 < |data| && offset + |data| <= old(View().credit)
        && Crowded(old(received.contiguous), old(received.ranges), received.maxRanges, Range(offset, offset + |data|))
      ensures error == Some(Capacity) ==>
        && InOrder(gaps, 0, MAX_WIRE_OFFSET)
        && (|old(receive.chunks)| + |gaps| > receive.maxChunks
            || Starved(receive.budget.limit - old(receive.budget.used), gaps, Larger(offset, old(receive.nextOffset)),
                 offset + |data|, |data|))
      ensures Intake.Unseen(old(View().content), offset, offset + |data|) ==>
        |old(receive.chunks)| < 8 && old(receive.budget.used) + |data| <= receive.budget.limit ==>
          error != Some(Capacity)
    {
      hide Accept, Fault, Coherent, Final, Prompt, UnreadSize, Owned, Consistent, Canonical, Ends, Missing, Others;
      hide Tokens, Crowded, Intake.Unseen, Clashes;
      var end := offset + |data|;
      gaps := [];
      ghost var was := View();
      ConsistentBounds(was);
      if end > MAX_U64 || end > maxReceiveOffset {
        return Some(if end > MAX_U64 then OffsetOverflow else FlowControl), gaps;
      }
      ValidateIs(received.contiguous, received.ranges, received.maxRanges, Range(offset, end));
      var refused := Validate(received.contiguous, received.ranges, received.maxRanges, Range(offset, end));
      if refused.Some? {
        return refused, gaps;
      }
      FaultExplained(receive.chunks, was, offset, data, fin);
      ghost var chunks := receive.chunks;
      error, gaps := receive.InsertRecord(offset, data, fin);
      if error.None? {
        Arrived(offset, data, fin, was);
      } else if error == Some(Capacity) {
        ByteLimitHolds(chunks, was, offset, end, gaps);
        EightFit(chunks, was, offset, end, gaps);
      }
    }

    /** src/flow.rs, `set_final_offset`. */
    method SetFinalOffset(offset: nat) returns (error: Option<RecoveryError>)
      requires Valid()
      modifies this, receive
      ensures Valid() && receive.Rest() == old(receive.Rest())
      ensures Finishes(old(View()), View(), offset, error)
      ensures creditDirty == old(creditDirty) && ackPending == AcksOwed(old(ackPending), error)
    {
      hide Coherent, Final, Prompt, UnreadSize, Owned, Canonical, Others;
      if offset > maxReceiveOffset {
        return Some(FlowControl);
      }
      error := receive.SetFinalOffset(offset);
      if error.Some? {
        return;
      }
      receiveFinalOffset := Some(offset);
      ackPending := Smaller(ackPending + 1, MAX_U32);
    }

    /** src/flow.rs, `read`: the next bytes, the end of the stream, an error, or nothing yet. */
    method Read(output: array<byte>) returns (result: ReadResult)
      requires Valid()
      modifies this, receive, receive.budget, output
      ensures Valid() && receive.Rest() == old(receive.Rest()) && error == old(error)
      ensures result.Broken? <==> error
      ensures result.Broken? ==> View() == old(View()) && output[..] == old(output[..])
      ensures result.Count? ==>
        && result.n <= output.Length && View() == Consumed(old(View()), result.n)
        && Spells(View().content, old(View().next), output[..result.n])
        && (result.n < output.Length ==> View().next !in View().content)
        && (result.n == 0 ==> View().final == Some(View().next))
      ensures result.Wait? ==> View() == old(View()) && View().final != Some(View().next)
      ensures result.Wait? && output.Length > 0 ==> View().next !in View().content
      ensures creditDirty <==> old(creditDirty) || View().credit > old(View().credit)
      ensures ackPending == old(ackPending)
    {
      hide Coherent, Final, Prompt, UnreadSize, Owned, Canonical, Others;
      if error {
        return Broken;
      }
      ghost var was := View();
      ReadFacts(receive.chunks, was);
      var read := receive.Read(output);
      StaysBounded(receive.chunks, receive.content, receive.nextOffset, receive.finalOffset);
      if read != 0 {
        var maximum := Smaller(receive.nextOffset + receiveWindow, MAX_WIRE_OFFSET);
        if maximum > maxReceiveOffset {
          maxReceiveOffset, creditDirty := maximum, true;
        }
      }
      var finished := receive.finalOffset == Some(receive.nextOffset);
      if read != 0 || finished {
        result := Count(read);
      } else {
        result := Wait;
      }
    }

    /** src/flow.rs, `queue_pending_feedback`: a snapshot of exactly what was received. */
    method TakeAck() returns (contiguous: nat, ranges: seq<Range>)
      requires Valid()
      modifies this`ackPending
      ensures Valid() && ackPending == 0 && View() == old(View())
      ensures Canonical(contiguous, ranges) && |ranges| <= received.maxRanges
      ensures forall o: nat :: Acked(contiguous, ranges, o) <==> o in View().content
      ensures View().next <= contiguous && contiguous !in View().content
      ensures forall o: nat :: o < contiguous ==> o in View().content
    {
      hide Coherent, Final, Prompt, UnreadSize, Owned;
      ackPending := 0;
      contiguous, ranges := received.contiguous, received.ranges;
      FirstMissing(contiguous, ranges);
      hide Canonical;
      assert !Acked(contiguous, ranges, contiguous);
    }

    /** src/flow.rs, `queue_pending_feedback`: the credit to announce. */
    method TakeCredit() returns (credit: Option<nat>)
      requires Valid()
      modifies this`creditDirty
      ensures Valid() && View() == old(View()) && !creditDirty
      ensures credit == if old(creditDirty) then Some(View().credit) else None
    {
      credit := if creditDirty then Some(maxReceiveOffset) else None;
      creditDirty := false;
    }

    /** src/flow.rs, `poll_wire`: an acknowledgment has been written, so read bytes below it may be released. */
    method AckWritten(contiguous: nat)
      requires Valid()
      modifies receive, receive.budget
      ensures Valid() && View() == old(View()) && receive.Rest() == old(receive.Rest())
      ensures receive.ackOffset == Larger(old(receive.ackOffset), contiguous)
    {
      hide Coherent, Final, Prompt, UnreadSize, Owned, Canonical, Others;
      receive.AcknowledgeConsumed(contiguous);
    }
  }
}
