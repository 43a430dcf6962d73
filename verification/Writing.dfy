/** Writing through the bounded flow buffer (src/flow.rs). */
module Writing {
  import opened Results
  import opened Galois
  import opened Varint
  import opened AckRanges
  import opened Chunks
  import opened Replay
  import opened Sending

  /**
   * `accepted` is every byte that a write call reported as written; `late` says that some of them
   * were reported after the shutdown of the flow.
   */
  datatype Writer = Writer(accepted: Bytes, buffer: Bytes, late: bool)

  datatype Poll = Done | Pending | Failed

  datatype Written = Accepted(count: nat) | Later | Refused

  /** src/flow.rs, `poll_send_buffer`: either the whole buffer is queued or nothing changes. */
  function SendBuffer(w: Writer, b: Outbox): (Poll, Writer, Outbox) {
    if w.buffer == [] then (Done, w, b)
    else
      match Ready(b, |w.buffer|)
      case Err(_) => (Failed, w, b)
      case Ok(false) => (Pending, w, b)
      case Ok(true) =>
        if |b.stream| + |w.buffer| > MAX_U64 then (Failed, w, b)
        else (Done, w.(buffer := []), Enqueue(b, w.buffer))
  }

  function Buffer(w: Writer, b: Outbox, more: Bytes): Writer {
    w.(buffer := w.buffer + more, accepted := w.accepted + more, late := w.late || b.shutdown.Some?)
  }

  /** The copy into the buffer at the end of `poll_buffered_write`, and what follows it. */
  function Append(w: Writer, b: Outbox, nodelay: bool, capacity: nat, more: Bytes): (Written, Writer, Outbox) {
    var fills := |w.buffer| + |more| == capacity;
    if !nodelay && fills && Ready(b, capacity) != Ok(true) then
      (if Ready(b, capacity).Ok? then Later else Refused, w, b)
    else if nodelay || fills then
      var (poll, w', b') := SendBuffer(Buffer(w, b, more), b);
      if poll.Failed? then (Refused, w.(buffer := w.buffer + more), b) else (Accepted(|more|), w', b')
    else (Accepted(|more|), Buffer(w, b, more), b)
  }

  function Room(w: Writer, capacity: nat, buf: Bytes): Bytes
    requires |w.buffer| <= capacity
  {
    buf[..Smaller(capacity - |w.buffer|, |buf|)]
  }

  /** src/flow.rs, `poll_buffered_write`. */
  function Write(w: Writer, b: Outbox, nodelay: bool, capacity: nat, buf: Bytes): (Written, Writer, Outbox)
    requires |w.buffer| <= capacity
  {
    if buf == [] then (Accepted(0), w, b)
    else if (nodelay && w.buffer != []) || |w.buffer| == capacity then
      var (poll, w', b') := SendBuffer(w, b);
      match poll
      case Done => Append(w', b', nodelay, capacity, Room(w', capacity, buf))
      case Pending => (Later, w', b')
      case Failed => (Refused, w', b')
    else Append(w, b, nodelay, capacity, Room(w, capacity, buf))
  }

  /** Bytes can still get from the buffer into the stream. */
  ghost predicate Open(w: Writer, b: Outbox) {
    !b.error && b.shutdown.None? && |b.stream| + |w.buffer| <= MAX_U64
  }

  /** The stream is a prefix of what was accepted; the buffer holds the rest while the flow is open. */
  ghost predicate Faithful(w: Writer, b: Outbox, capacity: nat) {
    && |w.buffer| <= capacity
    && b.stream <= w.accepted
    && (Open(w, b) ==> w.accepted == b.stream + w.buffer)
    && (b.shutdown.None? ==> !w.late)
    && (b.shutdown.Some? ==> (w.late <==> |w.accepted| > |b.stream|))
  }

  lemma SendBufferKeeps(w: Writer, b: Outbox, capacity: nat)
    requires Retains(b) && Faithful(w, b, capacity)
    ensures var (poll, w', b') := SendBuffer(w, b);
      && Retains(b') && Faithful(w', b', capacity) && w'.accepted == w.accepted
      && (poll.Done? ==> w'.buffer == []) && (!poll.Done? ==> w' == w && b' == b)
  {
    hide Retains;
    if w.buffer != [] && Ready(b, |w.buffer|) == Ok(true) && |b.stream| + |w.buffer| <= MAX_U64 {
      EnqueueKeeps(b, w.buffer);
    }
  }

  lemma BufferKeeps(w: Writer, b: Outbox, capacity: nat, more: Bytes)
    requires Faithful(w, b, capacity) && |w.buffer| + |more| <= capacity && more != []
    ensures Faithful(Buffer(w, b, more), b, capacity)
  {
    assert b.stream + (w.buffer + more) == b.stream + w.buffer + more;
  }

  lemma RefuseKeeps(w: Writer, b: Outbox, capacity: nat, more: Bytes)
    requires Faithful(w, b, capacity) && |w.buffer| + |more| <= capacity
    requires SendBuffer(Buffer(w, b, more), b).0.Failed?
    ensures Faithful(w.(buffer := w.buffer + more), b, capacity)
  {
  }

  lemma AppendKeeps(w: Writer, b: Outbox, nodelay: bool, capacity: nat, more: Bytes)
    requires Retains(b) && Faithful(w, b, capacity) && more != [] && |w.buffer| + |more| <= capacity
    ensures var (written, w', b') := Append(w, b, nodelay, capacity, more);
      && Retains(b') && Faithful(w', b', capacity)
      && (written.Accepted? ==> written.count == |more| && w'.accepted == w.accepted + more)
      && (!written.Accepted? ==> w'.accepted == w.accepted)
  {
    BufferKeeps(w, b, capacity, more);
    hide Retains, Faithful, SendBuffer, Ready;
    SendBufferKeeps(Buffer(w, b, more), b, capacity);
    if SendBuffer(Buffer(w, b, more), b).0.Failed? {
      RefuseKeeps(w, b, capacity, more);
    }
  }

  /** A write extends what was accepted by exactly the count it reports, and never by anything otherwise. */
  lemma WriteKeeps(w: Writer, b: Outbox, nodelay: bool, capacity: nat, buf: Bytes)
    requires Retains(b) && Faithful(w, b, capacity) && capacity > 0
    ensures var (written, w', b') := Write(w, b, nodelay, capacity, buf);
      && Retains(b') && Faithful(w', b', capacity)
      && (written.Accepted? ==> written.count <= |buf| && w'.accepted == w.accepted + buf[..written.count])
      && (written.Accepted? && buf != [] ==> written.count > 0)
      && (!written.Accepted? ==> w'.accepted == w.accepted)
  {
    hide Retains, Faithful, Append, SendBuffer;
    SendBufferKeeps(w, b, capacity);
    var (poll, w', b') := SendBuffer(w, b);
    if buf != [] {
      if (nodelay && w.buffer != []) || |w.buffer| == capacity {
        if poll.Done? {
          AppendKeeps(w', b', nodelay, capacity, Room(w', capacity, buf));
        }
      } else {
        BufferBound(w, b, capacity);
        AppendKeeps(w, b, nodelay, capacity, Room(w, capacity, buf));
      }
    }
  }

  lemma BufferBound(w: Writer, b: Outbox, capacity: nat)
    requires Faithful(w, b, capacity)
    ensures |w.buffer| <= capacity
  {
  }

  /** src/flow.rs, `poll_shutdown`: the buffer is queued first, then the end of the stream is fixed. */
  function Close(w: Writer, b: Outbox): (Poll, Writer, Outbox) {
    var (poll, w', b') := SendBuffer(w, b);
    if !poll.Done? then (poll, w', b')
    else if b'.error then (Failed, w', b')
    else (Done, w', Shutdown(b'))
  }

  lemma CloseKeeps(w: Writer, b: Outbox, capacity: nat)
    requires Retains(b) && Faithful(w, b, capacity)
    ensures var (poll, w', b') := Close(w, b);
      && Retains(b') && Faithful(w', b', capacity) && w'.accepted == w.accepted
      && (poll.Done? && b.shutdown.None? ==> b'.stream == w'.accepted && b'.shutdown == Some(|w'.accepted|))
  {
    SendBufferKeeps(w, b, capacity);
    var (poll, w', b') := SendBuffer(w, b);
    ShutdownKeeps(b');
    hide Retains, ChunkLimit;
  }

  /**
   * After the shutdown a write is still reported as accepted exactly when batching is on and the
   * bytes leave room in the buffer.
   */
  lemma LateWrites(w: Writer, b: Outbox, nodelay: bool, capacity: nat, buf: Bytes)
    requires |w.buffer| <= capacity && capacity > 0 && b.shutdown.Some? && buf != []
    ensures Write(w, b, nodelay, capacity, buf).0.Accepted? <==> !nodelay && |w.buffer| + |buf| < capacity
  {
  }

  // ----- when an open flow accepts

  /** The queue has room for n more bytes in one more chunk. */
  predicate HasRoom(b: Outbox, n: nat) {
    b.retainedBytes + n <= b.limit && b.retainedChunks < ChunkLimit(b.limit)
  }

  /** The queue has room for a chunk of m bytes and after it one of n. */
  predicate HasRoomTwice(b: Outbox, m: nat, n: nat) {
    b.retainedBytes + m + n <= b.limit && b.retainedChunks + 1 < ChunkLimit(b.limit)
  }

  /** The flow neither failed nor ended, and no offset can overflow. */
  predicate Flowing(w: Writer, b: Outbox, capacity: nat) {
    && !b.error && b.shutdown.None? && 0 < capacity && |w.buffer| <= capacity
    && |b.stream| + |w.buffer| + capacity <= MAX_U64
  }

  /** The old buffer has to go first. */
  predicate Drains(w: Writer, nodelay: bool, capacity: nat) {
    |w.buffer| == capacity || (nodelay && w.buffer != [])
  }

  /** A write has to wait: for the old buffer, or for a buffer that it would fill. */
  predicate Waits(w: Writer, b: Outbox, nodelay: bool, capacity: nat, buf: Bytes) {
    if Drains(w, nodelay, capacity) then
      !HasRoom(b, |w.buffer|) || (!nodelay && |buf| >= capacity && !HasRoomTwice(b, |w.buffer|, capacity))
    else !nodelay && |w.buffer| + |buf| >= capacity && !HasRoom(b, capacity)
  }

  function Outcome(w: Writer, b: Outbox, nodelay: bool, capacity: nat, buf: Bytes): Written
    requires |w.buffer| <= capacity
  {
    if Waits(w, b, nodelay, capacity, buf) then Later
    else Accepted(Smaller(if Drains(w, nodelay, capacity) then capacity else capacity - |w.buffer|, |buf|))
  }

  lemma AppendOpen(w: Writer, b: Outbox, nodelay: bool, capacity: nat, more: Bytes)
    requires Flowing(w, b, capacity) && more != [] && |w.buffer| + |more| <= capacity
    requires |b.stream| + |w.buffer| + |more| <= MAX_U64
    ensures var (written, w', b') := Append(w, b, nodelay, capacity, more);
      if !nodelay && |w.buffer| + |more| == capacity && !HasRoom(b, capacity)
      then written == Later && w' == w && b' == b
      else written == Accepted(|more|)
  {
    hide ChunkLimit, Enqueue;
  }

  /**
   * Every nonempty write to an open flow is accepted as far as the buffer reaches, with a positive count, or has to
   * wait; which of the two is settled by the room in the queue. It has to wait only if the queue it leaves behind has
   * no room for a buffer.
   */
  lemma OpenWrites(w: Writer, b: Outbox, nodelay: bool, capacity: nat, buf: Bytes)
    requires Flowing(w, b, capacity) && buf != []
    ensures var (written, w', b') := Write(w, b, nodelay, capacity, buf);
      && written == Outcome(w, b, nodelay, capacity, buf)
      && (written.Accepted? ==> 0 < written.count)
      && (written.Later? ==> !HasRoom(b', capacity))
      && (written.Later? ==> (w', b') == (w, b) || (w'.buffer == [] && b'.stream == b.stream + w.buffer))
  {
    hide ChunkLimit;
    if Drains(w, nodelay, capacity) {
      var (poll, w', b') := SendBuffer(w, b);
      assert poll.Done? <==> HasRoom(b, |w.buffer|);
      if poll.Done? {
        hide SendBuffer, Append;
        AppendOpen(w', b', nodelay, capacity, Room(w', capacity, buf));
      }
    } else {
      hide SendBuffer, Append;
      AppendOpen(w, b, nodelay, capacity, Room(w, capacity, buf));
    }
  }

  /**
   * Room for one buffer suffices unless the buffer is full, batching is on and the write would fill the emptied buffer
   * as well; then it takes room for two.
   */
  lemma RoomAccepts(w: Writer, b: Outbox, nodelay: bool, capacity: nat, buf: Bytes)
    requires Flowing(w, b, capacity) && buf != [] && HasRoom(b, capacity)
    ensures Write(w, b, nodelay, capacity, buf).0.Accepted? <==>
      nodelay || |w.buffer| < capacity || |buf| < capacity || HasRoomTwice(b, capacity, capacity)
  {
    hide Write, ChunkLimit;
    OpenWrites(w, b, nodelay, capacity, buf);
  }

  /** A full buffer of one byte, batching on, and room in the queue for one byte: one more byte has to wait. */
  lemma FullBufferWaits(b: Outbox)
    requires !b.error && b.shutdown.None? && |b.stream| + 2 <= MAX_U64
    requires b.retainedBytes == 0 && b.retainedChunks == 0 && b.limit == 1
    ensures HasRoom(b, 1) && Write(Writer(b.stream + [7], [7], false), b, false, 1, [8]).0 == Later
  {
    RoomAccepts(Writer(b.stream + [7], [7], false), b, false, 1, [8]);
    OpenWrites(Writer(b.stream + [7], [7], false), b, false, 1, [8]);
  }
}
