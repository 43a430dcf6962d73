/** The sending half of a flow as the shared state and the flow task change it (src/flow.rs). */
module Sender {
  import opened Results
  import opened Galois
  import opened Varint
  import opened AckRanges
  import opened Chunks
  import opened Replay
  import opened Sending
  import opened Writing

  /** The backend's answer to a DATAGRAM: taken, not now, or no longer possible. */
  datatype SendAnswer = Taken | Blocked | Unsupported

  datatype Effect = Nothing | AsDatagram(chunk: SentChunk) | AsStream(chunk: SentChunk)

  /** How much of a chunk may be sent at once: as much as payload, credit and chunk allow. */
  function SendLength(c: SentChunk, payloadLimit: nat, peerMax: nat): (n: nat)
    requires c.offset <= peerMax
    ensures n <= payloadLimit && c.offset + n <= peerMax && n <= |c.bytes|
    ensures n == payloadLimit || c.offset + n == peerMax || n == |c.bytes|
  {
    Smaller(Smaller(payloadLimit, peerMax - c.offset), |c.bytes|)
  }

  /** A chunk can go: it is within the peer's limit, it need not be split or may be, and it is not held up. */
  ghost predicate CanSend(b: Outbox, c: SentChunk, payloadLimit: nat, datagrams: bool, answer: SendAnswer) {
    && c.offset < b.peerMax
    && (|c.bytes| <= SendLength(c, payloadLimit, b.peerMax) || b.retainedChunks < ChunkLimit(b.limit))
    && !(datagrams && answer.Blocked?)
  }

  lemma HandIs(b: Outbox)
    requires Retains(b) && b.hand.Some?
    ensures b.hand.value.offset == b.sent && b.hand.value.bytes != [] && Slice(b.stream, b.hand.value)
  {
    assert b.Chain()[0] == b.hand.value;
  }

  lemma LastSlot(b: Outbox)
    requires Retains(b) && b.hand.Some?
    ensures EndBy(b.replay, b.hand.value.offset)
  {
    HandIs(b);
  }

  lemma Untagged(c: SentChunk)
    ensures c == Chunk(c.offset, c.bytes, ())
  {
    assert c.tag == ();
  }

  /** Inserting past the end of an ordered list is appending. */
  lemma AppendsLast(before: seq<SentChunk>, n: nat, c: SentChunk, after: seq<SentChunk>)
    requires n <= |before| && after == InsertAt(before, n, c) && Ordered(after) && EndBy(before, c.offset)
    ensures after == before + [c]
  {
    InsertIndex(before, n, c);
    assert after[n] == c;
    forall i | n < i < |after| ensures after[i] in before {
    }
    var next := if n + 1 < |after| then n + 1 else n;
    var k := after[next];
    assert k == c || k in before;
    assert before[..|before|] == before;
  }

  lemma CreditKeeps(b: Outbox, maximum: nat)
    requires Retains(b) && b.peerMax <= maximum <= MAX_WIRE_OFFSET
    ensures Retains(b.(peerMax := maximum)) && b.(peerMax := maximum).Chain() == b.Chain()
  {
  }

  lemma SizeZero(chunks: seq<SentChunk>)
    requires Ordered(chunks)
    ensures Size(chunks) == 0 <==> chunks == []
  {
  }

  class FlowSender {
    ghost var stream: Bytes
    ghost var sent: nat
    var nextSendOffset: nat
    var outbound: seq<SentChunk>
    var hand: Option<SentChunk>
    const replay: ReplayBuffer
    var retainedBytes: nat
    var retainedChunks: nat
    const replayLimit: nat
    var peerMaxOffset: nat
    var shutdownTarget: Option<nat>
    var error: bool
    var locallyReset: bool
    var taskStopped: bool
    var finQueued: bool

    ghost function View(): Outbox
      reads this, replay
    {
      Outbox(stream, sent, outbound, hand, replay.chunks, retainedBytes, retainedChunks, replayLimit, peerMaxOffset,
             shutdownTarget, error, locallyReset, taskStopped, finQueued)
    }

    ghost predicate Valid()
      reads this, replay
    {
      Retains(View()) && replay.Valid() && replay.maxBytes == replayLimit && nextSendOffset == |stream|
    }

    /** `initial` was delivered with the opening of the flow, before this half existed. */
    constructor (limit: nat, ghost initial: Bytes, initialSendOffset: nat)
      requires |initial| == initialSendOffset <= MAX_U64
      ensures Valid() && fresh(replay)
      ensures View() == Outbox(initial, |initial|, [], None, [], 0, 0, limit, 0, None, false, false, false, false)
    {
      stream, sent, nextSendOffset := initial, |initial|, initialSendOffset;
      outbound, hand, retainedBytes, retainedChunks := [], None, 0, 0;
      replay := new ReplayBuffer(limit);
      replayLimit, peerMaxOffset, shutdownTarget := limit, 0, None;
      error, locallyReset, taskStopped, finQueued := false, false, false, false;
      new;
      assert View().Chain() == [];
    }

    /** src/flow.rs, `enqueue`. */
    method EnqueueBytes(bytes: Bytes) returns (result: Result<bool, ()>)
      requires Valid() && bytes != []
      modifies this
      ensures Valid()
      ensures result == (if Ready(old(View()), |bytes|) == Ok(true) && old(|stream|) + |bytes| > MAX_U64 then Err(())
                         else Ready(old(View()), |bytes|))
      ensures View() == if result == Ok(true) then Enqueue(old(View()), bytes) else old(View())
    {
      hide Retains;
      if error || shutdownTarget.Some? {
        return Err(());
      }
      if retainedBytes + |bytes| > replayLimit || retainedChunks >= ChunkLimit(replayLimit) {
        return Ok(false);
      }
      if nextSendOffset + |bytes| > MAX_U64 {
        return Err(());
      }
      EnqueueKeeps(View(), bytes);
      var offset := nextSendOffset;
      nextSendOffset := offset + |bytes|;
      stream := stream + bytes;
      retainedBytes, retainedChunks := retainedBytes + |bytes|, retainedChunks + 1;
      outbound := outbound + [Chunk(offset, bytes, ())];
      return Ok(true);
    }

    /** src/flow.rs, `can_enqueue`. */
    method CanEnqueueNow(length: nat) returns (result: Result<bool, ()>)
      requires Valid()
      ensures result == Ready(View(), length)
    {
      if error || shutdownTarget.Some? {
        return Err(());
      }
      return Ok(retainedBytes + length <= replayLimit && retainedChunks < ChunkLimit(replayLimit));
    }

    /** src/flow.rs, `request_shutdown`. */
    method RequestShutdown() returns (ok: bool)
      requires Valid()
      modifies this`shutdownTarget
      ensures Valid() && (ok <==> !error)
      ensures View() == if ok then Shutdown(old(View())) else old(View())
    {
      hide Retains;
      if error {
        return false;
      }
      ShutdownKeeps(View());
      if shutdownTarget.None? {
        shutdownTarget := Some(nextSendOffset);
      }
      return true;
    }

    /** src/flow.rs, `request_reset`. */
    method RequestReset() returns (ok: bool)
      requires Valid()
      modifies this
      ensures Valid()
      ensures ok <==> old(locallyReset) || !(old(taskStopped) || old(error))
      ensures View() == if ok && !old(locallyReset) then Reset(old(View())) else old(View())
    {
      hide Retains, Size, ChunkLimit, Less, Ordered;
      if locallyReset {
        return true;
      }
      if taskStopped || error {
        return false;
      }
      ResetKeeps(View());
      DiscardFits(View());
      retainedBytes, retainedChunks := retainedBytes - Size(outbound), retainedChunks - |outbound|;
      locallyReset, error, outbound := true, true, [];
      return true;
    }

    /** src/flow.rs, `take_outbound`. */
    method TakeOutbound() returns (chunk: Option<SentChunk>)
      requires Valid() && hand.None?
      modifies this`outbound, this`hand
      ensures Valid() && hand == chunk
      ensures if old(outbound) == [] then chunk.None? && View() == old(View()) else View() == Take(old(View()))
    {
      hide Retains;
      if outbound == [] {
        return None;
      }
      TakeKeeps(View());
      chunk := Some(outbound[0]);
      hand, outbound := chunk, outbound[1..];
    }

    /** The chunk in hand goes back to the front of the queue. */
    method ReturnOutbound()
      requires Valid() && hand.Some?
      modifies this`outbound, this`hand
      ensures Valid() && View() == PutBack(old(View()))
    {
      hide Retains;
      PutBackKeeps(View());
      outbound, hand := [hand.value] + outbound, None;
    }

    /** Splits the chunk in hand after `length` bytes, unless the chunk limit is reached. */
    method SplitOutbound(length: nat) returns (ok: bool)
      requires Valid() && hand.Some? && 0 < length < |hand.value.bytes|
      modifies this
      ensures Valid() && (ok <==> old(retainedChunks) < ChunkLimit(replayLimit))
      ensures View() == if ok then Split(old(View()), length) else old(View())
    {
      hide Retains;
      if retainedChunks >= ChunkLimit(replayLimit) {
        return false;
      }
      SplitKeeps(View(), length);
      outbound, retainedChunks := [Tail(hand.value, length)] + outbound, retainedChunks + 1;
      hand := Some(Head(hand.value, length));
      return true;
    }

    /** The chunk in hand is kept for replay: the call that `process_outbound` relies on never to fail. */
    method RetainOutbound()
      requires Valid() && hand.Some? && hand.value.End() <= peerMaxOffset
      modifies this`hand, this`sent, replay
      ensures Valid() && View() == Retain(old(View()))
    {
      hide Retains, Keeps, Has, EndBy, Ordered, Size, ChunkLimit;
      RetainNeverFails(View());
      RetainKeeps(View());
      LastSlot(View());
      ghost var before, c := replay.chunks, hand.value;
      var failed := replay.Retain(hand.value.offset, hand.value.bytes);
      assert failed.None?;
      assert replay.chunks == before + [c] by {
        var n :| 0 <= n <= |before| && replay.chunks == InsertAt(before, n, Chunk(c.offset, c.bytes, ()));
        Untagged(c);
        AppendsLast(before, n, c, replay.chunks);
      }
      sent, hand := c.End(), None;
    }

    /** src/flow.rs, `process_outbound`, when no other thread touches the flow meanwhile. */
    method ProcessOutbound(payloadLimit: nat, datagrams: bool, answer: SendAnswer) returns (effect: Effect)
      requires Valid() && hand.None? && payloadLimit > 0
      modifies this, replay
      ensures Valid() && hand.None? && stream == old(stream) && peerMaxOffset == old(peerMaxOffset)
      ensures forall o: nat :: Keeps(View(), o) <==> Keeps(old(View()), o)
      // Something is sent exactly when it can be, and it is as much of the first chunk as may go at once.
      ensures !effect.Nothing? <==>
        old(outbound) != [] && CanSend(old(View()), old(outbound)[0], payloadLimit, datagrams, answer)
      ensures effect.Nothing? ==> replay.chunks == old(replay.chunks) && sent == old(sent)
      ensures !effect.Nothing? ==>
        && replay.chunks == old(replay.chunks) + [effect.chunk] && Slice(stream, effect.chunk)
        && effect.chunk.offset == old(sent) && sent == effect.chunk.End() <= peerMaxOffset
        && 0 < |effect.chunk.bytes| == SendLength(old(outbound)[0], payloadLimit, peerMaxOffset)
      ensures effect.AsDatagram? ==> datagrams && answer.Taken?
      ensures effect.AsStream? ==> !datagrams || answer.Unsupported?
    {
      hide Retains, Has, Slice, Ordered, Size, ChunkLimit;
      ghost var was := View();
      if outbound != [] {
        TakeKeeps(was);
      }
      var taken := TakeOutbound();
      if taken.None? {
        return Nothing;
      }
      HandIs(View());
      if hand.value.offset >= peerMaxOffset {
        PutBackKeeps(View());
        ReturnOutbound();
        return Nothing;
      }
      effect := SendOutbound(payloadLimit, datagrams, answer);
    }

    /** The rest of `process_outbound`, with a chunk below the peer's limit in hand. */
    method SendOutbound(payloadLimit: nat, datagrams: bool, answer: SendAnswer) returns (effect: Effect)
      requires Valid() && hand.Some? && hand.value.offset < peerMaxOffset && payloadLimit > 0 && hand.value.bytes != []
      modifies this, replay
      ensures Valid() && hand.None? && stream == old(stream) && peerMaxOffset == old(peerMaxOffset)
      ensures forall o: nat :: Keeps(View(), o) <==> Keeps(old(View()), o)
      ensures !effect.Nothing? <==> CanSend(old(View()), old(hand).value, payloadLimit, datagrams, answer)
      ensures effect.Nothing? ==> replay.chunks == old(replay.chunks) && sent == old(sent)
      ensures !effect.Nothing? ==>
        && replay.chunks == old(replay.chunks) + [effect.chunk] && Slice(stream, effect.chunk)
        && effect.chunk.offset == old(sent) && sent == effect.chunk.End() <= peerMaxOffset
        && 0 < |effect.chunk.bytes| == SendLength(old(hand).value, payloadLimit, peerMaxOffset)
      ensures effect.AsDatagram? ==> datagrams && answer.Taken?
      ensures effect.AsStream? ==> !datagrams || answer.Unsupported?
    {
      hide Retains, Slice;
      var length := Smaller(Smaller(payloadLimit, peerMaxOffset - hand.value.offset), |hand.value.bytes|);
      if |hand.value.bytes| > length {
        ghost var was := View();
        var ok := SplitOutbound(length);
        if !ok {
          PutBackKeeps(View());
          ReturnOutbound();
          return Nothing;
        }
        SplitKeeps(was, length);
      }
      hide Has, Split;
      HandIs(View());
      if datagrams && answer.Blocked? {
        PutBackKeeps(View());
        ReturnOutbound();
        return Nothing;
      }
      var chunk := hand.value;
      RetainKeeps(View());
      RetainOutbound();
      effect := if datagrams && answer.Taken? then AsDatagram(chunk) else AsStream(chunk);
    }

    /** Releases what an acknowledgment covers, from the replay buffer and from both counters. */
    method ReleaseAcked(ack: AckRanges)
      requires Valid() && ack.Valid()
      modifies this`retainedBytes, this`retainedChunks, replay
      ensures Valid() && View() == Acknowledge(old(View()), ack.contiguous, ack.ranges)
    {
      hide Retains, Canonical, Unacked, Keeps, Has, Acked, InRanges, AllAcked, Size, Ordered, ChunkLimit, Less;
      AcknowledgeKeeps(View(), ack.contiguous, ack.ranges);
      AcknowledgeFits(View(), ack.contiguous, ack.ranges);
      var bytes, chunks := replay.Acknowledge(ack);
      if bytes != 0 {
        retainedBytes, retainedChunks := retainedBytes - bytes, retainedChunks - chunks;
      }
    }

    /** src/flow.rs, `apply_control` on an acknowledgment; `c` and `r` are the announced set in stored form. */
    method ApplyAck(contiguous: nat, ranges: seq<Range>, maxRanges: nat)
      returns (refused: bool, ghost c: nat, ghost r: seq<Range>)
      requires Valid() && contiguous <= MAX_WIRE_OFFSET
      modifies this`retainedBytes, this`retainedChunks, replay
      ensures Valid()
      ensures refused ==> View() == old(View())
      ensures !refused <==>
        && contiguous <= |stream| && |ranges| <= maxRanges
        && forall i :: 0 <= i < |ranges| ==>
             ranges[i].start < ranges[i].end <= |stream| && ranges[i].end <= MAX_WIRE_OFFSET
      ensures !refused ==> Canonical(c, r) && forall o: nat :: Acked(c, r, o) <==> o < contiguous || InRanges(ranges, o)
      ensures !refused ==> View() == Acknowledge(old(View()), c, r)
    {
      hide Retains, Canonical, Acknowledge, Ordered, Size, ChunkLimit;
      c, r := 0, [];
      var ack := new AckRanges(maxRanges);
      var error := ack.FromWire(contiguous, ranges, nextSendOffset);
      refused := error.Some?;
      if !refused {
        c, r := ack.contiguous, ack.ranges;
        ReleaseAcked(ack);
      }
    }

    /** src/flow.rs, `apply_control` on new credit. */
    method ApplyMaxOffset(maximum: nat) returns (refused: bool)
      requires Valid() && maximum <= MAX_WIRE_OFFSET
      modifies this`peerMaxOffset
      ensures Valid() && (refused <==> maximum < old(peerMaxOffset))
      ensures View() == if refused then old(View()) else old(View()).(peerMax := maximum)
    {
      if maximum < peerMaxOffset {
        return true;
      }
      CreditKeeps(View(), maximum);
      hide Retains;
      peerMaxOffset := maximum;
      return false;
    }

    /** src/flow.rs, `queue_terminal_frames`: the end is announced once, after everything is acknowledged. */
    method QueueTerminalFrames() returns (fin: Option<nat>)
      requires Valid() && hand.None?
      modifies this`finQueued
      ensures Valid()
      ensures fin.Some? <==> CanFinish(old(View()))
      ensures fin.Some? ==> fin == Some(|stream|) && View() == old(View()).(finQueued := true)
      ensures fin.None? ==> View() == old(View())
    {
      SizeZero(replay.chunks);
      if shutdownTarget.Some? && !finQueued && outbound == [] && replay.bytes == 0 {
        finQueued := true;
        return shutdownTarget;
      }
      return None;
    }

    /**
     * The flow task is dropped, and its replay buffer with it (src/flow.rs, `discard_retained`, `mark_task_stopped`).
     */
    method StopTask()
      requires Valid()
      modifies this, replay
      ensures Valid() && View() == Stop(old(View()))
    {
      hide Retains, ChunkLimit, Ordered;
      StopKeeps(View());
      outbound, hand, sent := [], None, |stream|;
      replay.Clear();
      retainedBytes, retainedChunks, taskStopped := 0, 0, true;
    }
  }

  /** The application's handle, with its bounded write buffer (src/flow.rs, `QuicpFlow`). */
  class FlowHandle {
    var sendBuffer: Bytes
    const capacity: nat
    const sender: FlowSender
    ghost var accepted: Bytes
    ghost var late: bool

    ghost function Writes(): Writer
      reads this
    {
      Writer(accepted, sendBuffer, late)
    }

    ghost predicate Valid()
      reads this, sender, sender.replay
    {
      sender.Valid() && Faithful(Writes(), sender.View(), capacity) && capacity > 0
    }

    constructor (sender: FlowSender, capacity: nat)
      requires sender.Valid() && sender.shutdownTarget.None? && capacity > 0
      ensures Valid() && this.sender == sender && this.capacity == capacity
      ensures Writes() == Writer(sender.stream, [], false)
    {
      this.sender, this.capacity := sender, capacity;
      sendBuffer, accepted, late := [], sender.stream, false;
    }

    /** src/flow.rs, `poll_send_buffer`. */
    method PollSendBuffer() returns (poll: Poll)
      requires sender.Valid()
      modifies this`sendBuffer, sender
      ensures sender.Valid()
      ensures (poll, Writes(), sender.View()) == SendBuffer(old(Writes()), old(sender.View()))
    {
      hide Retains;
      if sendBuffer == [] {
        return Done;
      }
      var result := sender.EnqueueBytes(sendBuffer);
      match result {
        case Ok(true) =>
          sendBuffer := [];
          return Done;
        case Ok(false) =>
          return Pending;
        case Err(_) =>
          return Failed;
      }
    }

    /** src/flow.rs, `poll_buffered_write`. */
    method PollWrite(nodelay: bool, buf: Bytes) returns (written: Written)
      requires Valid()
      modifies this, sender
      ensures Valid()
      ensures (written, Writes(), sender.View()) == Write(old(Writes()), old(sender.View()), nodelay, capacity, buf)
      ensures old(Flowing(Writes(), sender.View(), capacity)) && buf != [] ==>
        && written == old(Outcome(Writes(), sender.View(), nodelay, capacity, buf))
        && (written.Later? ==> !HasRoom(sender.View(), capacity))
    {
      hide Retains, ChunkLimit, Append, SendBuffer, Faithful, Flowing, Outcome, HasRoom;
      if Flowing(Writes(), sender.View(), capacity) && buf != [] {
        OpenWrites(Writes(), sender.View(), nodelay, capacity, buf);
      }
      WriteKeeps(Writes(), sender.View(), nodelay, capacity, buf);
      BufferBound(Writes(), sender.View(), capacity);
      SendBufferKeeps(Writes(), sender.View(), capacity);
      if buf == [] {
        return Accepted(0);
      }
      if (nodelay && sendBuffer != []) || |sendBuffer| == capacity {
        var poll := PollSendBuffer();
        if poll.Failed? {
          return Refused;
        }
        if poll.Pending? {
          return Later;
        }
      }
      written := PollAppend(nodelay, buf[..Smaller(capacity - |sendBuffer|, |buf|)]);
    }

    method PollAppend(nodelay: bool, more: Bytes) returns (written: Written)
      requires sender.Valid() && |sendBuffer| + |more| <= capacity
      modifies this, sender
      ensures sender.Valid()
      ensures (written, Writes(), sender.View()) == Append(old(Writes()), old(sender.View()), nodelay, capacity, more)
    {
      hide Retains, ChunkLimit, Enqueue;
      var fills := |sendBuffer| + |more| == capacity;
      if !nodelay && fills {
        var ready := sender.CanEnqueueNow(capacity);
        if ready.Err? {
          return Refused;
        }
        if !ready.value {
          return Later;
        }
      }
      ghost var w, b := Writes(), sender.View();
      sendBuffer := sendBuffer + more;
      accepted, late := accepted + more, late || sender.shutdownTarget.Some?;
      if nodelay || fills {
        var poll := PollSendBuffer();
        if poll.Failed? {
          accepted, late := w.accepted, w.late;
          return Refused;
        }
      }
      return Accepted(|more|);
    }

    /** src/flow.rs, `poll_shutdown`, up to the wait for the flow task. */
    method PollShutdown() returns (poll: Poll)
      requires Valid()
      modifies this, sender
      ensures Valid()
      ensures (poll, Writes(), sender.View()) == Close(old(Writes()), old(sender.View()))
    {
      CloseKeeps(Writes(), sender.View(), capacity);
      hide Retains;
      poll := PollSendBuffer();
      if !poll.Done? {
        return;
      }
      var ok := sender.RequestShutdown();
      if !ok {
        return Failed;
      }
    }
  }
}
