/** What holds in every state that two endpoints can reach, and what follows from it. */
module EndpointsSafety {
  import opened Results
  import opened Galois
  import opened Varint
  import opened AckRanges
  import opened Chunks
  import opened Gaps
  import opened Replay
  import opened Sending
  import opened Sender
  import opened Writing
  import opened Receiving
  import opened Endpoints

  // ----- the invariant, one direction at a time: `x` sends, `y` receives

  /** A chunk that may travel: a stretch of the stream within the credit the sender was given. */
  ghost predicate Sendable(stream: Bytes, peerMax: nat, c: SentChunk) {
    c.bytes != [] && Slice(stream, c) && c.End() <= peerMax
  }

  ghost predicate InFlight(x: Outbox, frames: seq<Frame>) {
    forall i :: 0 <= i < |frames| ==>
      && (frames[i].DataFrame? ==> Sendable(x.stream, x.peerMax, frames[i].chunk))
      && (frames[i].FinFrame? ==> x.finQueued && frames[i].offset == |x.stream|)
  }

  ghost predicate Scattered(x: Outbox, records: set<SentChunk>) {
    forall c :: c in records ==> Sendable(x.stream, x.peerMax, c)
  }

  /** Every accepted byte is the byte that was written at its offset. */
  ghost predicate Agrees(content: map<nat, byte>, stream: Bytes) {
    forall o: nat :: o in content ==> o < |stream| && content[o] == stream[o]
  }

  /** The credit that will be announced next. */
  function Announced(y: Endpoint): nat {
    if y.pendingCredit.Some? then y.pendingCredit.value else y.in_.credit
  }

  /** Credit only rises on its way to the sender, and never past what the receiver grants. */
  ghost predicate Credited(peerMax: nat, frames: seq<Frame>, announced: nat, credit: nat) {
    && peerMax <= announced <= credit
    && (forall i :: 0 <= i < |frames| && frames[i].CreditFrame? ==> peerMax <= frames[i].maximum <= announced)
    && forall i, j :: 0 <= i < j < |frames| && frames[i].CreditFrame? && frames[j].CreditFrame? ==>
      frames[i].maximum <= frames[j].maximum
  }

  /** An acknowledgment covers only what was received. */
  ghost predicate Truthful(content: map<nat, byte>, maxRanges: nat, contiguous: nat, ranges: seq<Range>) {
    && Canonical(contiguous, ranges) && |ranges| <= maxRanges
    && forall o: nat :: Acked(contiguous, ranges, o) ==> o in content
  }

  ghost predicate Acknowledged(content: map<nat, byte>, maxRanges: nat, frames: seq<Frame>,
                               pending: Option<(nat, seq<Range>)>)
  {
    && (forall i :: 0 <= i < |frames| && frames[i].AckFrame? ==>
      Truthful(content, maxRanges, frames[i].contiguous, frames[i].ranges))
    && (pending.Some? ==> Truthful(content, maxRanges, pending.value.0, pending.value.1))
  }

  /** No byte is lost: the sender still has it or the receiver does. */
  ghost predicate Conserved(x: Outbox, content: map<nat, byte>) {
    !x.reset && !x.stopped ==> forall o: nat :: o < |x.stream| ==> Keeps(x, o) || o in content
  }

  /** Once the end is announced, everything before it was received, unless the announcement followed a reset. */
  ghost predicate Complete(x: Endpoint, content: map<nat, byte>) {
    x.out.finQueued && !x.finAfterReset ==> forall o: nat :: o < |x.out.stream| ==> o in content
  }

  ghost predicate Delivers(y: Endpoint, x: Outbox) {
    && y.delivered <= x.stream && |y.delivered| == y.in_.next
    && (y.in_.final.Some? ==> x.finQueued && y.in_.final.value == |x.stream|)
    && (y.ended ==> y.in_.final.Some? && y.delivered == x.stream)
  }

  ghost predicate Direction(k: Config, x: Endpoint, y: Endpoint, data: seq<Frame>, feedback: seq<Frame>,
                            records: set<SentChunk>)
  {
    && Retains(x.out) && Faithful(x.writer, x.out, k.capacity)
    && Consistent(y.in_) && Agrees(y.in_.content, x.out.stream)
    && InFlight(x.out, data) && Scattered(x.out, records)
    && Credited(x.out.peerMax, feedback, Announced(y), y.in_.credit)
    && Acknowledged(y.in_.content, k.maxRanges, feedback, y.pendingAck)
    && Conserved(x.out, y.in_.content) && Complete(x, y.in_.content)
    && Delivers(y, x.out)
  }

  ghost predicate Safe(k: Config, s: State) {
    && k.capacity > 0
    && Direction(k, s.a, s.b, s.ab, s.ba, s.dab)
    && Direction(k, s.b, s.a, s.ba, s.ab, s.dba)
  }

  // ----- changes to the sending half

  /** What a step may do to a sending half without disturbing the other end. */
  ghost predicate Evolves(x: Outbox, x': Outbox, content: map<nat, byte>) {
    && Retains(x')
    && x.stream <= x'.stream && x.peerMax <= x'.peerMax
    && (x.finQueued ==> x'.finQueued && x'.stream == x.stream)
    && (!x'.reset && !x'.stopped ==>
      && !x.reset && !x.stopped
      && (forall o: nat :: Keeps(x, o) ==> Keeps(x', o) || o in content)
      && forall o: nat :: |x.stream| <= o < |x'.stream| ==> Keeps(x', o) || o in content)
  }

  lemma SendableGrows(stream: Bytes, stream': Bytes, peerMax: nat, peerMax': nat, c: SentChunk)
    requires Sendable(stream, peerMax, c) && stream <= stream' && peerMax <= peerMax'
    ensures Sendable(stream', peerMax', c)
  {
    assert stream'[c.offset..c.End()] == stream[c.offset..c.End()];
  }

  lemma InFlightGrows(x: Outbox, x': Outbox, data: seq<Frame>, records: set<SentChunk>)
    requires InFlight(x, data) && Scattered(x, records)
    requires x.stream <= x'.stream && x.peerMax <= x'.peerMax && (x.finQueued ==> x'.finQueued && x'.stream == x.stream)
    ensures InFlight(x', data) && Scattered(x', records)
  {
    forall i | 0 <= i < |data|
      ensures data[i].DataFrame? ==> Sendable(x'.stream, x'.peerMax, data[i].chunk)
    {
      if data[i].DataFrame? {
        SendableGrows(x.stream, x'.stream, x.peerMax, x'.peerMax, data[i].chunk);
      }
    }
    forall c | c in records ensures Sendable(x'.stream, x'.peerMax, c) {
      SendableGrows(x.stream, x'.stream, x.peerMax, x'.peerMax, c);
    }
  }

  lemma ConservedGrows(x: Outbox, x': Outbox, content: map<nat, byte>)
    requires Conserved(x, content) && Evolves(x, x', content)
    ensures Conserved(x', content)
  {
  }

  lemma DeliversGrows(y: Endpoint, x: Outbox, x': Outbox)
    requires Delivers(y, x) && Agrees(y.in_.content, x.stream)
    requires x.stream <= x'.stream && (x.finQueued ==> x'.finQueued && x'.stream == x.stream)
    ensures Delivers(y, x') && Agrees(y.in_.content, x'.stream)
  {
    assert y.delivered <= x'.stream by {
      assert forall i :: 0 <= i < |y.delivered| ==> y.delivered[i] == x.stream[i] == x'.stream[i];
    }
  }

  /** Steps of the sending half that put nothing on a channel. */
  lemma OutMoves(k: Config, x: Endpoint, x': Endpoint, y: Endpoint, data: seq<Frame>, feedback: seq<Frame>,
                 records: set<SentChunk>)
    requires Direction(k, x, y, data, feedback, records)
    requires Evolves(x.out, x'.out, y.in_.content) && x'.out.peerMax == x.out.peerMax
    requires Faithful(x'.writer, x'.out, k.capacity)
    requires x'.out.finQueued == x.out.finQueued && x'.finAfterReset == x.finAfterReset
    ensures Direction(k, x', y, data, feedback, records)
  {
    hide Retains, InFlight, Scattered, Conserved, Credited, Acknowledged, Consistent, Keeps, Agrees, Delivers, Faithful;
    InFlightGrows(x.out, x'.out, data, records);
    ConservedGrows(x.out, x'.out, y.in_.content);
    DeliversGrows(y, x.out, x'.out);
  }

  lemma EvolvesNot(x: Outbox, content: map<nat, byte>)
    requires Retains(x)
    ensures Evolves(x, x, content)
  {
  }

  lemma EvolvesTwice(x: Outbox, y: Outbox, z: Outbox, content: map<nat, byte>)
    requires Evolves(x, y, content) && Evolves(y, z, content)
    ensures Evolves(x, z, content)
  {
    assert x.stream <= z.stream by {
      assert forall i :: 0 <= i < |x.stream| ==> x.stream[i] == y.stream[i] == z.stream[i];
    }
    hide Retains, Keeps;
  }

  lemma EnqueueEvolves(b: Outbox, bytes: Bytes, content: map<nat, byte>)
    requires Retains(b) && CanEnqueue(b, bytes)
    ensures Evolves(b, Enqueue(b, bytes), content)
  {
    EnqueueKeeps(b, bytes);
    var r, c := Enqueue(b, bytes), Chunk(|b.stream|, bytes, ());
    forall o: nat ensures Keeps(r, o) <==> Keeps(b, o) || Holds(c, o) {
      HasConcat(b.Chain(), [c], o);
      assert Has([c], o) <==> Holds(c, o) by { assert [c][0] == c; }
    }
    assert b.finQueued ==> b.shutdown.Some?;
    hide Retains, Keeps;
  }

  lemma SendBufferEvolves(w: Writer, b: Outbox, capacity: nat, content: map<nat, byte>)
    requires Retains(b) && Faithful(w, b, capacity)
    ensures Evolves(b, SendBuffer(w, b).2, content) && SendBuffer(w, b).2.peerMax == b.peerMax
    ensures SendBuffer(w, b).2.finQueued == b.finQueued
  {
    hide Retains, Evolves;
    EvolvesNot(b, content);
    if w.buffer != [] && Ready(b, |w.buffer|) == Ok(true) && |b.stream| + |w.buffer| <= MAX_U64 {
      EnqueueEvolves(b, w.buffer, content);
    }
  }

  lemma WriteEvolves(w: Writer, b: Outbox, nodelay: bool, capacity: nat, buf: Bytes, content: map<nat, byte>)
    requires Retains(b) && Faithful(w, b, capacity) && capacity > 0
    ensures var b' := Write(w, b, nodelay, capacity, buf).2;
      Evolves(b, b', content) && b'.peerMax == b.peerMax && b'.finQueued == b.finQueued
  {
    hide Retains, Evolves, SendBuffer, Faithful, Ready;
    BufferBound(w, b, capacity);
    EvolvesNot(b, content);
    SendBufferKeeps(w, b, capacity);
    SendBufferEvolves(w, b, capacity, content);
    if buf != [] {
      if (nodelay && w.buffer != []) || |w.buffer| == capacity {
        var (poll, w', b') := SendBuffer(w, b);
        if poll.Done? {
          AppendEvolves(w', b', nodelay, capacity, Room(w', capacity, buf), content);
          EvolvesTwice(b, b', Append(w', b', nodelay, capacity, Room(w', capacity, buf)).2, content);
        }
      } else {
        AppendEvolves(w, b, nodelay, capacity, Room(w, capacity, buf), content);
      }
    }
  }

  lemma AppendEvolves(w: Writer, b: Outbox, nodelay: bool, capacity: nat, more: Bytes, content: map<nat, byte>)
    requires Retains(b) && Faithful(w, b, capacity) && |w.buffer| + |more| <= capacity && more != []
    ensures var b' := Append(w, b, nodelay, capacity, more).2;
      Evolves(b, b', content) && b'.peerMax == b.peerMax && b'.finQueued == b.finQueued
  {
    hide Retains, Evolves, SendBuffer, Faithful, Ready;
    EvolvesNot(b, content);
    BufferKeeps(w, b, capacity, more);
    SendBufferEvolves(Buffer(w, b, more), b, capacity, content);
  }

  lemma CloseEvolves(w: Writer, b: Outbox, capacity: nat, content: map<nat, byte>)
    requires Retains(b) && Faithful(w, b, capacity)
    ensures var b' := Close(w, b).2;
      Evolves(b, b', content) && b'.peerMax == b.peerMax && b'.finQueued == b.finQueued
  {
    hide Retains, SendBuffer, Faithful;
    SendBufferKeeps(w, b, capacity);
    SendBufferEvolves(w, b, capacity, content);
    var b1 := SendBuffer(w, b).2;
    ShutdownKeeps(b1);
    assert Shutdown(b1).Chain() == b1.Chain();
  }

  /** Chunks that only change places. */
  lemma Rearranges(x: Outbox, x': Outbox, w: Writer, capacity: nat, content: map<nat, byte>)
    requires Retains(x) && Retains(x') && Faithful(w, x, capacity)
    requires x'.stream == x.stream && x'.peerMax == x.peerMax && x'.finQueued == x.finQueued
    requires x'.reset == x.reset && x'.stopped == x.stopped && x'.error == x.error && x'.shutdown == x.shutdown
    requires forall o: nat :: Keeps(x, o) ==> Keeps(x', o) || o in content
    ensures Evolves(x, x', content) && Faithful(w, x', capacity)
  {
    hide Retains, Keeps;
  }

  lemma StopEvolves(x: Outbox, w: Writer, capacity: nat, content: map<nat, byte>)
    requires Retains(x) && Faithful(w, x, capacity)
    ensures Evolves(x, Stop(x.(error := true)), content) && Faithful(w, Stop(x.(error := true)), capacity)
  {
    assert x.(error := true).Chain() == x.Chain();
    StopKeeps(x.(error := true));
    hide Retains, Keeps;
  }

  lemma ResetEvolves(x: Outbox, w: Writer, capacity: nat, content: map<nat, byte>)
    requires Retains(x) && Faithful(w, x, capacity)
    ensures Evolves(x, Reset(x), content) && Faithful(w, Reset(x), capacity)
  {
    ResetKeeps(x);
    hide Retains, Keeps;
  }

  // ----- changes to the channels

  lemma AppendData(x: Outbox, data: seq<Frame>, frame: Frame)
    requires InFlight(x, data)
    requires frame.DataFrame? ==> Sendable(x.stream, x.peerMax, frame.chunk)
    requires frame.FinFrame? ==> x.finQueued && frame.offset == |x.stream|
    ensures InFlight(x, data + [frame])
  {
  }

  /** Seen from the other direction, an endpoint that sends data or only moves chunks has not changed. */
  lemma Backwards(k: Config, x: Endpoint, y: Endpoint, y': Endpoint, data: seq<Frame>, feedback: seq<Frame>,
                  more: seq<Frame>, records: set<SentChunk>)
    requires Direction(k, x, y, data, feedback, records)
    requires y'.in_ == y.in_ && y'.delivered == y.delivered && y'.ended == y.ended
    requires y'.pendingAck == y.pendingAck && y'.pendingCredit == y.pendingCredit
    requires forall i :: 0 <= i < |more| ==> more[i].DataFrame? || more[i].FinFrame?
    ensures Direction(k, x, y', data, feedback + more, records)
  {
    hide Retains, InFlight, Scattered, Conserved, Consistent, Keeps, Agrees, Faithful, Truthful;
    var after := feedback + more;
    forall i | 0 <= i < |after| && !after[i].DataFrame? && !after[i].FinFrame?
      ensures i < |feedback| && after[i] == feedback[i]
    {
    }
    assert Announced(y') == Announced(y);
  }

  lemma Trailing(frames: seq<Frame>)
    ensures frames + [] == frames
  {
  }

  // ----- steps of the sender

  lemma OutActs(k: Config, s: State, s': State)
    requires Safe(k, s)
    requires s'.b == s.b && s'.ab == s.ab && s'.ba == s.ba && s'.dab == s.dab && s'.dba == s.dba
    requires s'.a == s.a.(writer := s'.a.writer, out := s'.a.out)
    requires Evolves(s.a.out, s'.a.out, s.b.in_.content) && Faithful(s'.a.writer, s'.a.out, k.capacity)
    requires s'.a.out.peerMax == s.a.out.peerMax && s'.a.out.finQueued == s.a.out.finQueued
    ensures Safe(k, s')
  {
    hide Direction, Evolves, Faithful;
    Trailing(s.ab);
    OutMoves(k, s.a, s'.a, s.b, s.ab, s.ba, s.dab);
    Backwards(k, s.b, s.a, s'.a, s.ba, s.ab, [], s.dba);
  }

  lemma DirectionOut(k: Config, x: Endpoint, y: Endpoint, data: seq<Frame>, feedback: seq<Frame>,
                     records: set<SentChunk>)
    requires Direction(k, x, y, data, feedback, records)
    ensures Retains(x.out) && Faithful(x.writer, x.out, k.capacity)
  {
  }

  lemma WriterActs(k: Config, s: State, act: Action, s': State)
    requires Safe(k, s) && Acts(k, s, act, s')
    requires act.WriteBytes? || act.Flush? || act.CloseWriter?
    ensures Safe(k, s')
  {
    var x, content := s.a, s.b.in_.content;
    DirectionOut(k, s.a, s.b, s.ab, s.ba, s.dab);
    hide Direction, Evolves, Faithful, Write, Close, SendBuffer, Retains;
    match act {
      case WriteBytes(nodelay, buf) =>
        BufferBound(x.writer, x.out, k.capacity);
        WriteKeeps(x.writer, x.out, nodelay, k.capacity, buf);
        WriteEvolves(x.writer, x.out, nodelay, k.capacity, buf, content);
      case Flush =>
        SendBufferKeeps(x.writer, x.out, k.capacity);
        SendBufferEvolves(x.writer, x.out, k.capacity, content);
      case CloseWriter =>
        CloseKeeps(x.writer, x.out, k.capacity);
        CloseEvolves(x.writer, x.out, k.capacity, content);
    }
    OutActs(k, s, s');
  }

  lemma StopActs(k: Config, s: State, act: Action, s': State)
    requires Safe(k, s) && Acts(k, s, act, s')
    requires act.Abort? || act.Fail?
    ensures Safe(k, s')
  {
    var x, content := s.a, s.b.in_.content;
    assert s' == s.(a := x.(out := if act.Abort? then Reset(x.out) else Stop(x.out.(error := true))));
    hide Direction, Evolves, Faithful, Retains, Acts;
    DirectionOut(k, s.a, s.b, s.ab, s.ba, s.dab);
    ResetEvolves(x.out, x.writer, k.capacity, content);
    StopEvolves(x.out, x.writer, k.capacity, content);
    OutActs(k, s, s');
  }

  /** What the three steps that rearrange the queue have in common. */
  lemma QueueMoves(x: Outbox, act: Action, x': Outbox)
    requires Retains(x) && (act.TakeChunk? || act.ReturnChunk? || act.SplitChunk?)
    requires act.TakeChunk? ==> x.hand.None? && x.outbound != [] && x' == Take(x)
    requires act.ReturnChunk? ==> x.hand.Some? && x' == PutBack(x)
    requires act.SplitChunk? ==>
      x.hand.Some? && 0 < act.length < |x.hand.value.bytes| && x.retainedChunks < ChunkLimit(x.limit)
    requires act.SplitChunk? ==> x' == Split(x, act.length)
    ensures Retains(x') && forall o: nat :: Keeps(x, o) ==> Keeps(x', o)
  {
    hide Retains, Has;
    match act {
      case TakeChunk => TakeKeeps(x);
      case ReturnChunk => PutBackKeeps(x);
      case SplitChunk(length) => SplitKeeps(x, length);
    }
  }

  lemma QueueActs(k: Config, s: State, act: Action, s': State)
    requires Safe(k, s) && Acts(k, s, act, s')
    requires act.TakeChunk? || act.ReturnChunk? || act.SplitChunk?
    ensures Safe(k, s')
  {
    DirectionOut(k, s.a, s.b, s.ab, s.ba, s.dab);
    hide Direction, Evolves, Faithful, Retains, Keeps, ChunkLimit;
    QueueMoves(s.a.out, act, s'.a.out);
    Rearranges(s.a.out, s'.a.out, s.a.writer, k.capacity, s.b.in_.content);
    OutActs(k, s, s');
  }

  /** Passing a chunk on keeps the direction safe, and the chunk may travel. */
  lemma RetainMoves(k: Config, x: Endpoint, y: Endpoint, data: seq<Frame>, feedback: seq<Frame>,
                    records: set<SentChunk>)
    requires Direction(k, x, y, data, feedback, records) && x.out.hand.Some? && x.out.hand.value.End() <= x.out.peerMax
    ensures Direction(k, x.(out := Retain(x.out)), y, data, feedback, records)
    ensures Sendable(x.out.stream, x.out.peerMax, x.out.hand.value)
  {
    DirectionOut(k, x, y, data, feedback, records);
    HandIs(x.out);
    hide Direction, Evolves, Faithful, Retains, Keeps, Slice;
    RetainKeeps(x.out);
    Rearranges(x.out, Retain(x.out), x.writer, k.capacity, y.in_.content);
    OutMoves(k, x, x.(out := Retain(x.out)), y, data, feedback, records);
  }

  lemma ReplaySendable(x: Outbox, i: nat)
    requires Retains(x) && i < |x.replay|
    ensures Sendable(x.stream, x.peerMax, x.replay[i])
  {
  }

  lemma DirectionSends(k: Config, x: Endpoint, y: Endpoint, data: seq<Frame>, feedback: seq<Frame>,
                       records: set<SentChunk>, c: SentChunk)
    requires Direction(k, x, y, data, feedback, records) && Sendable(x.out.stream, x.out.peerMax, c)
    ensures Direction(k, x, y, data + [DataFrame(c)], feedback, records)
    ensures Direction(k, x, y, data, feedback, records + {c})
  {
    AppendData(x.out, data, DataFrame(c));
    hide Retains, InFlight, Conserved, Consistent, Keeps, Agrees, Faithful, Sendable, Credited, Acknowledged, Delivers;
    hide Complete;
  }

  lemma SendActs(k: Config, s: State, act: Action, s': State)
    requires Safe(k, s) && Acts(k, s, act, s')
    requires act.SendDatagram? || act.SendStream?
    ensures Safe(k, s')
  {
    var x, y := s.a, s.b;
    var c, x' := x.out.hand.value, x.(out := Retain(x.out));
    var more := if act.SendStream? then [DataFrame(c)] else [];
    assert s' == s.(a := x', ab := s.ab + more, dab := if act.SendStream? then s.dab else s.dab + {c}) by {
      Trailing(s.ab);
    }
    hide Direction, Acts, Retain;
    RetainMoves(k, x, y, s.ab, s.ba, s.dab);
    DirectionSends(k, x', y, s.ab, s.ba, s.dab, c) by { assert Retain(x.out).stream == x.out.stream; }
    Trailing(s.ab);
    Backwards(k, y, x, x', s.ba, s.ab, more, s.dba);
  }

  lemma ReplayActs(k: Config, s: State, act: Action, s': State)
    requires Safe(k, s) && Acts(k, s, act, s')
    requires act.ReplayDatagram? || act.ReplayStream?
    ensures Safe(k, s')
  {
    var x, y := s.a, s.b;
    var c := x.out.replay[act.index];
    var more := if act.ReplayStream? then [DataFrame(c)] else [];
    assert s' == s.(ab := s.ab + more, dab := if act.ReplayStream? then s.dab else s.dab + {c}) by { Trailing(s.ab); }
    DirectionOut(k, x, y, s.ab, s.ba, s.dab);
    hide Direction, Acts, Retains, Sendable, Faithful;
    ReplaySendable(x.out, act.index);
    DirectionSends(k, x, y, s.ab, s.ba, s.dab, c);
    Trailing(s.ab);
    Backwards(k, y, x, x, s.ba, s.ab, more, s.dba);
  }

  lemma FinActs(k: Config, s: State, act: Action, s': State)
    requires Safe(k, s) && Acts(k, s, act, s') && act.SendFin?
    ensures Safe(k, s')
  {
    var x, y := s.a, s.b;
    hide Direction;
    assert s' == s.(a := s'.a, ab := s.ab + [FinFrame(x.out.shutdown.value)]);
    FinMoves(k, x, s'.a, y, s.ab, s.ba, s.dab);
    hide Acts;
    Backwards(k, y, x, s'.a, s.ba, s.ab, [FinFrame(x.out.shutdown.value)], s.dba);
  }

  lemma FinMoves(k: Config, x: Endpoint, x': Endpoint, y: Endpoint, data: seq<Frame>, feedback: seq<Frame>,
                 records: set<SentChunk>)
    requires Direction(k, x, y, data, feedback, records)
    requires !x.out.stopped && CanFinish(x.out)
    requires x' == x.(out := x.out.(finQueued := true), finAfterReset := x.out.reset)
    ensures Direction(k, x', y, data + [FinFrame(x.out.shutdown.value)], feedback, records)
  {
    assert x'.out.Chain() == x.out.Chain() == [];
    assert Retains(x'.out);
    assert x.out.shutdown.value == |x.out.stream|;
    InFlightGrows(x.out, x'.out, data, records);
    AppendData(x'.out, data, FinFrame(x.out.shutdown.value));
    forall o: nat ensures !Keeps(x.out, o) {
    }
    hide Retains, InFlight, Scattered, Consistent, Keeps, Agrees, Credited, Acknowledged;
  }

  // ----- steps of the receiver

  lemma Popped(k: Config, x: Endpoint, y: Endpoint, data: seq<Frame>, feedback: seq<Frame>, records: set<SentChunk>)
    requires Direction(k, x, y, data, feedback, records)
    ensures data != [] ==> Direction(k, x, y, data[1..], feedback, records)
    ensures feedback != [] ==> Direction(k, x, y, data, feedback[1..], records)
  {
    hide Retains, Faithful, Consistent, Agrees, Scattered, Conserved, Complete, Delivers, Truthful, Sendable;
    if data != [] {
      assert InFlight(x.out, data[1..]);
    }
    if feedback != [] {
      var rest := feedback[1..];
      forall i | 0 <= i < |rest| ensures rest[i] == feedback[i + 1] {
      }
      assert Credited(x.out.peerMax, rest, Announced(y), y.in_.credit);
      assert Acknowledged(y.in_.content, k.maxRanges, rest, y.pendingAck);
    }
  }

  /** Refused, if at all, only because the receiver has no room left. */
  predicate ForRoom(error: Option<RecoveryError>) {
    error.Some? ==> error.value.Capacity? || error.value.RangeCapacity?
  }

  /** A record that was sent is refused only for want of room. */
  lemma ArrivalIsSound(x: Outbox, i: Inbox, i': Inbox, c: SentChunk, error: Option<RecoveryError>)
    requires Sendable(x.stream, x.peerMax, c) && x.peerMax <= i.credit && Consistent(i) && Agrees(i.content, x.stream)
    requires i.final.Some? ==> i.final.value == |x.stream|
    requires Receives(i, i', c.offset, c.bytes, false, error)
    ensures ForRoom(error)
    ensures Agrees(i'.content, x.stream) && i'.final == i.final && forall o: nat :: o in i.content ==> o in i'.content
  {
    ConsistentBounds(i);
    forall o: nat | c.offset <= o < c.End() ensures c.bytes[o - c.offset] == x.stream[o] {
      assert x.stream[c.offset..c.End()][o - c.offset] == x.stream[o];
    }
    forall o: nat ensures !Conflict(i.content, c.offset, c.bytes, o) {
      assert c.offset <= o < c.End() ==> c.bytes[o - c.offset] == x.stream[o];
    }
    assert Ends(i, c.End(), false);
    if error.None? {
      AcceptedAre(i.content, c.offset, c.bytes);
    }
  }

  lemma AcksGrow(content: map<nat, byte>, content': map<nat, byte>, maxRanges: nat, frames: seq<Frame>,
                 pending: Option<(nat, seq<Range>)>)
    requires Acknowledged(content, maxRanges, frames, pending) && forall o: nat :: o in content ==> o in content'
    ensures Acknowledged(content', maxRanges, frames, pending)
  {
    hide Canonical, Acked;
  }

  lemma ContentGrows(x: Endpoint, content: map<nat, byte>, content': map<nat, byte>)
    requires Conserved(x.out, content) && Complete(x, content) && forall o: nat :: o in content ==> o in content'
    ensures Conserved(x.out, content') && Complete(x, content')
  {
    hide Keeps;
  }

  lemma InMoves(k: Config, x: Endpoint, y: Endpoint, data: seq<Frame>, feedback: seq<Frame>, records: set<SentChunk>,
                c: SentChunk, after: Inbox, error: Option<RecoveryError>)
    requires Direction(k, x, y, data, feedback, records)
    requires Sendable(x.out.stream, x.out.peerMax, c) && Receives(y.in_, after, c.offset, c.bytes, false, error)
    ensures ForRoom(error)
    ensures Direction(k, x, y.(in_ := after), data, feedback, records)
  {
    ArrivalIsSound(x.out, y.in_, after, c, error);
    ConsistentStays(y.in_, after, c.offset, c.bytes, false, error);
    AcksGrow(y.in_.content, after.content, k.maxRanges, feedback, y.pendingAck);
    ContentGrows(x, y.in_.content, after.content);
    assert after.credit == y.in_.credit && after.next == y.in_.next;
    assert Announced(y.(in_ := after)) == Announced(y);
    hide Retains, Faithful, Consistent, Agrees, InFlight, Scattered, Conserved, Complete, Acknowledged, Receives;
    hide Sendable, Credited;
  }

  lemma ArriveActs(k: Config, s: State, act: Action, s': State)
    requires Safe(k, s) && Acts(k, s, act, s') && act.Arrive?
    ensures Safe(k, s')
    ensures ForRoom(act.error)
  {
    assert s' == s.(a := s.a.(in_ := act.after)) && act.chunk in s.dba;
    assert Receives(s.a.in_, act.after, act.chunk.offset, act.chunk.bytes, false, act.error);
    hide Acts, Receives;
    assert Sendable(s.b.out.stream, s.b.out.peerMax, act.chunk);
    hide Direction, Sendable;
    InMoves(k, s.b, s.a, s.ba, s.ab, s.dba, act.chunk, act.after, act.error);
    SenderOnly(k, s.a, s'.a, s.b, s.ab, s.ba, s.dab);
  }

  /** A direction does not depend on the receiving half of its sender. */
  lemma SenderOnly(k: Config, x: Endpoint, x': Endpoint, y: Endpoint, data: seq<Frame>, feedback: seq<Frame>,
                   records: set<SentChunk>)
    requires Direction(k, x, y, data, feedback, records)
    requires x'.writer == x.writer && x'.out == x.out && x'.finAfterReset == x.finAfterReset
    ensures Direction(k, x', y, data, feedback, records)
  {
    hide Retains, Faithful, Consistent, Agrees, InFlight, Scattered, Conserved, Delivers, Acknowledged, Credited;
  }

  // ----- steps of the feedback

  lemma CreditSteps(x: Endpoint, y: Endpoint, y': Endpoint, feedback: seq<Frame>, more: seq<Frame>)
    requires Credited(x.out.peerMax, feedback, Announced(y), y.in_.credit)
    requires Announced(y) <= Announced(y') <= y'.in_.credit && y.in_.credit <= y'.in_.credit
    requires |more| <= 1 && (|more| == 1 && more[0].CreditFrame? ==> Announced(y) <= more[0].maximum <= Announced(y'))
    ensures Credited(x.out.peerMax, feedback + more, Announced(y'), y'.in_.credit)
  {
  }

  lemma AckSteps(content: map<nat, byte>, maxRanges: nat, feedback: seq<Frame>, more: seq<Frame>,
                 pending: Option<(nat, seq<Range>)>, pending': Option<(nat, seq<Range>)>)
    requires Acknowledged(content, maxRanges, feedback, pending)
    requires pending'.Some? ==> Truthful(content, maxRanges, pending'.value.0, pending'.value.1)
    requires forall i :: 0 <= i < |more| && more[i].AckFrame? ==>
      Truthful(content, maxRanges, more[i].contiguous, more[i].ranges)
    ensures Acknowledged(content, maxRanges, feedback + more, pending')
  {
    hide Truthful;
  }

  lemma FeedbackMoves(k: Config, x: Endpoint, y: Endpoint, y': Endpoint, data: seq<Frame>, feedback: seq<Frame>,
                      more: seq<Frame>, records: set<SentChunk>)
    requires Direction(k, x, y, data, feedback, records)
    requires y'.in_ == y.in_ && y'.delivered == y.delivered && y'.ended == y.ended
    requires Announced(y) <= Announced(y') <= y.in_.credit
    requires |more| <= 1 && (|more| == 1 && more[0].CreditFrame? ==> Announced(y) <= more[0].maximum <= Announced(y'))
    requires y'.pendingAck.Some? ==> Truthful(y.in_.content, k.maxRanges, y'.pendingAck.value.0, y'.pendingAck.value.1)
    requires forall i :: 0 <= i < |more| && more[i].AckFrame? ==>
      Truthful(y.in_.content, k.maxRanges, more[i].contiguous, more[i].ranges)
    ensures Direction(k, x, y', data, feedback + more, records)
  {
    CreditSteps(x, y, y', feedback, more);
    AckSteps(y.in_.content, k.maxRanges, feedback, more, y.pendingAck, y'.pendingAck);
    hide Retains, Faithful, Consistent, Agrees, InFlight, Scattered, Conserved, Complete, Acknowledged, Credited;
    hide Announced;
  }

  /** Frames of feedback are no data. */
  lemma DataIgnores(k: Config, x: Endpoint, x': Endpoint, y: Endpoint, data: seq<Frame>, more: seq<Frame>,
                    feedback: seq<Frame>, records: set<SentChunk>)
    requires Direction(k, x, y, data, feedback, records)
    requires x'.writer == x.writer && x'.out == x.out && x'.finAfterReset == x.finAfterReset
    requires forall i :: 0 <= i < |more| ==> more[i].AckFrame? || more[i].CreditFrame?
    ensures Direction(k, x', y, data + more, feedback, records)
  {
    hide Retains, Faithful, Consistent, Agrees, Scattered, Conserved, Delivers, Acknowledged, Credited, Sendable;
    assert InFlight(x.out, data + more);
  }

  lemma DirectionIn(k: Config, x: Endpoint, y: Endpoint, data: seq<Frame>, feedback: seq<Frame>,
                    records: set<SentChunk>)
    requires Direction(k, x, y, data, feedback, records)
    ensures Consistent(y.in_) && x.out.peerMax <= Announced(y) <= y.in_.credit
    ensures y.pendingAck.Some? ==> Truthful(y.in_.content, k.maxRanges, y.pendingAck.value.0, y.pendingAck.value.1)
  {
  }

  lemma FeedbackActs(k: Config, s: State, act: Action, s': State)
    requires Safe(k, s) && Acts(k, s, act, s')
    requires act.SnapshotAck? || act.SnapshotCredit? || act.SendAck? || act.SendCredit?
    ensures Safe(k, s')
  {
    hide Direction, Canonical;
    var e := s.a;
    var more := if act.SendAck? then [AckFrame(e.pendingAck.value.0, e.pendingAck.value.1)]
      else if act.SendCredit? then [CreditFrame(e.pendingCredit.value)] else [];
    assert s' == s.(a := s'.a, ab := s.ab + more) by { Trailing(s.ab); }
    DirectionIn(k, s.b, s.a, s.ba, s.ab, s.dba);
    FeedbackMoves(k, s.b, s.a, s'.a, s.ba, s.ab, more, s.dba);
    DataIgnores(k, s.a, s'.a, s.b, s.ab, more, s.ba, s.dab);
  }

  // ----- delivery of control frames

  /** A truthful acknowledgment is always acceptable. */
  lemma AckIsAccepted(x: Outbox, content: map<nat, byte>, maxRanges: nat, contiguous: nat, ranges: seq<Range>)
    requires Truthful(content, maxRanges, contiguous, ranges) && Agrees(content, x.stream)
    ensures AckAccepted(x, maxRanges, contiguous, ranges)
  {
    if contiguous > 0 {
      assert Acked(contiguous, ranges, contiguous - 1);
    }
    forall i | 0 <= i < |ranges| ensures ranges[i].end <= |x.stream| {
      assert Inside(ranges[i], ranges[i].end - 1);
      assert Acked(contiguous, ranges, ranges[i].end - 1);
    }
  }

  lemma AckMoves(k: Config, x: Endpoint, y: Endpoint, data: seq<Frame>, feedback: seq<Frame>, records: set<SentChunk>,
                 contiguous: nat, ranges: seq<Range>, c: nat, r: seq<Range>)
    requires Direction(k, x, y, data, feedback, records)
    requires Truthful(y.in_.content, k.maxRanges, contiguous, ranges) && Stands(c, r, contiguous, ranges)
    ensures Direction(k, x.(out := Acknowledge(x.out, c, r)), y, data, feedback, records)
  {
    DirectionOut(k, x, y, data, feedback, records);
    var x' := x.(out := Acknowledge(x.out, c, r));
    AcknowledgeKeeps(x.out, c, r);
    hide Direction, Evolves, Retains, Keeps, Canonical, Acked, Faithful;
    Rearranges(x.out, x'.out, x.writer, k.capacity, y.in_.content);
    OutMoves(k, x, x', y, data, feedback, records);
  }

  lemma CreditMoves(k: Config, x: Endpoint, y: Endpoint, data: seq<Frame>, feedback: seq<Frame>,
                    records: set<SentChunk>)
    requires Direction(k, x, y, data, feedback, records) && feedback != [] && feedback[0].CreditFrame?
    ensures x.out.peerMax <= feedback[0].maximum
    ensures Direction(k, x.(out := x.out.(peerMax := feedback[0].maximum)), y, data, feedback[1..], records)
  {
    var maximum := feedback[0].maximum;
    var x' := x.(out := x.out.(peerMax := maximum));
    ConsistentBounds(y.in_);
    CreditKeeps(x.out, maximum);
    assert forall o: nat :: Keeps(x'.out, o) <==> Keeps(x.out, o);
    InFlightGrows(x.out, x'.out, data, records);
    Popped(k, x, y, data, feedback, records);
    var rest := feedback[1..];
    forall i | 0 <= i < |rest| ensures rest[i] == feedback[i + 1] {
    }
    assert Credited(maximum, rest, Announced(y), y.in_.credit);
    hide Retains, Consistent, Agrees, InFlight, Scattered, Keeps, Acknowledged, Credited, Delivers;
  }

  /** The end of the stream is accepted, unless a reset let it be announced past the credit. */
  lemma FinalMoves(k: Config, x: Endpoint, y: Endpoint, data: seq<Frame>, feedback: seq<Frame>, records: set<SentChunk>,
                   after: Inbox, error: Option<RecoveryError>)
    requires Direction(k, x, y, data, feedback, records) && x.out.finQueued
    requires Finishes(y.in_, after, |x.out.stream|, error)
    ensures error.Some? <==> |x.out.stream| > y.in_.credit
    ensures error.Some? ==> error == Some(FlowControl) && x.finAfterReset
    ensures error.None? ==> Direction(k, x, y.(in_ := after), data, feedback, records)
  {
    assert Ends(y.in_, |x.out.stream|, true);
    if !x.finAfterReset && |x.out.stream| > 0 {
      assert |x.out.stream| - 1 in y.in_.content;
    }
    if error.None? {
      assert Consistent(after);
      assert Announced(y.(in_ := after)) == Announced(y);
    }
    hide Retains, Faithful, Consistent, Agrees, InFlight, Scattered, Conserved, Complete, Acknowledged, Credited;
  }

  /** What a control frame may meet at its receiver, by kind. */
  ghost predicate Welcome(frame: Frame, error: Option<RecoveryError>, sender: Endpoint, receiver: Inbox) {
    match frame
    case DataFrame(_) => ForRoom(error)
    case FinFrame(offset) =>
      && (error.Some? <==> offset > receiver.credit)
      && (error.Some? ==> error == Some(FlowControl) && sender.finAfterReset)
    case AckFrame(_, _) => error.None?
    case CreditFrame(_) => error.None?
  }

  lemma DeliverFails(k: Config, s: State, s': State)
    requires Safe(k, s) && s' == s.(a := GivesUp(s.a))
    ensures Safe(k, s')
  {
    StopActs(k, s, Fail, s');
  }

  lemma DeliverData(k: Config, s: State, after: Inbox, error: Option<RecoveryError>, s': State)
    requires Safe(k, s) && s.ba != [] && s.ba[0].DataFrame?
    requires s'.a == (if error.None? then s.a.(in_ := after) else GivesUp(s.a))
    requires Receives(s.a.in_, after, s.ba[0].chunk.offset, s.ba[0].chunk.bytes, false, error)
    requires s' == s.(a := s'.a, ba := s.ba[1..])
    ensures Safe(k, s') && ForRoom(error)
  {
    var s1 := s.(ba := s.ba[1..]);
    assert Sendable(s.b.out.stream, s.b.out.peerMax, s.ba[0].chunk);
    hide Direction, Sendable, Receives;
    Popped(k, s.b, s.a, s.ba, s.ab, s.dba);
    Popped(k, s.a, s.b, s.ab, s.ba, s.dab);
    InMoves(k, s1.b, s1.a, s1.ba, s1.ab, s1.dba, s.ba[0].chunk, after, error);
    if error.None? {
      SenderOnly(k, s1.a, s'.a, s1.b, s1.ab, s1.ba, s1.dab);
    } else {
      DeliverFails(k, s1, s');
    }
  }

  lemma DeliverFin(k: Config, s: State, after: Inbox, error: Option<RecoveryError>, s': State)
    requires Safe(k, s) && s.ba != [] && s.ba[0].FinFrame?
    requires s'.a == (if error.None? then s.a.(in_ := after) else GivesUp(s.a))
    requires Finishes(s.a.in_, after, s.ba[0].offset, error)
    requires s' == s.(a := s'.a, ba := s.ba[1..])
    ensures Safe(k, s') && Welcome(s.ba[0], error, s.b, s.a.in_)
  {
    var s1 := s.(ba := s.ba[1..]);
    assert s.b.out.finQueued && s.ba[0].offset == |s.b.out.stream|;
    hide Direction, Finishes;
    Popped(k, s.b, s.a, s.ba, s.ab, s.dba);
    Popped(k, s.a, s.b, s.ab, s.ba, s.dab);
    FinalMoves(k, s1.b, s1.a, s1.ba, s1.ab, s1.dba, after, error);
    if error.None? {
      SenderOnly(k, s1.a, s'.a, s1.b, s1.ab, s1.ba, s1.dab);
    } else {
      DeliverFails(k, s1, s');
    }
  }

  lemma DeliverAck(k: Config, s: State, c: nat, r: seq<Range>, s': State)
    requires Safe(k, s) && s.ba != [] && s.ba[0].AckFrame? && Stands(c, r, s.ba[0].contiguous, s.ba[0].ranges)
    requires s' == s.(a := s.a.(out := Acknowledge(s.a.out, c, r)), ba := s.ba[1..])
    ensures Safe(k, s')
  {
    var frame := s.ba[0];
    assert Truthful(s.b.in_.content, k.maxRanges, frame.contiguous, frame.ranges);
    hide Direction, Truthful, Stands, Acknowledge;
    Popped(k, s.b, s.a, s.ba, s.ab, s.dba);
    Popped(k, s.a, s.b, s.ab, s.ba, s.dab);
    AckMoves(k, s.a, s.b, s.ab, s.ba[1..], s.dab, frame.contiguous, frame.ranges, c, r);
    Trailing(s.ab);
    Backwards(k, s.b, s.a, s'.a, s.ba[1..], s.ab, [], s.dba);
  }

  lemma DeliverCredit(k: Config, s: State, s': State)
    requires Safe(k, s) && s.ba != [] && s.ba[0].CreditFrame?
    requires s' == s.(a := s.a.(out := s.a.out.(peerMax := s.ba[0].maximum)), ba := s.ba[1..])
    ensures Safe(k, s')
  {
    hide Direction;
    CreditMoves(k, s.a, s.b, s.ab, s.ba, s.dab);
    Popped(k, s.b, s.a, s.ba, s.ab, s.dba);
    Trailing(s.ab);
    Backwards(k, s.b, s.a, s'.a, s.ba[1..], s.ab, [], s.dba);
  }

  lemma FeedbackIsWelcome(k: Config, s: State)
    requires Safe(k, s) && s.ba != []
    ensures s.ba[0].AckFrame? ==> AckAccepted(s.a.out, k.maxRanges, s.ba[0].contiguous, s.ba[0].ranges)
    ensures s.ba[0].CreditFrame? ==> s.a.out.peerMax <= s.ba[0].maximum
  {
    var frame := s.ba[0];
    if frame.AckFrame? {
      AckIsAccepted(s.a.out, s.b.in_.content, k.maxRanges, frame.contiguous, frame.ranges);
    }
  }

  lemma DeliverActs(k: Config, s: State, act: Action, s': State)
    requires Safe(k, s) && s.ba != [] && act.Deliver? && Acts(k, s, act, s')
    ensures Safe(k, s') && Welcome(s.ba[0], act.error, s.b, s.a.in_)
  {
    hide Safe;
    var frame := s.ba[0];
    assert Applies(k, s.a, frame, act.after, act.error, s'.a);
    FeedbackIsWelcome(k, s);
    match frame {
      case DataFrame(_) => DeliverData(k, s, act.after, act.error, s');
      case FinFrame(_) => DeliverFin(k, s, act.after, act.error, s');
      case AckFrame(contiguous, ranges) =>
        var c, r :| Stands(c, r, contiguous, ranges) && s'.a == s.a.(out := Acknowledge(s.a.out, c, r));
        DeliverAck(k, s, c, r, s');
      case CreditFrame(_) => DeliverCredit(k, s, s');
    }
  }

  // ----- steps of the reader

  lemma ReadConsistent(i: Inbox, bytes: Bytes)
    requires Consistent(i) && Spells(i.content, i.next, bytes) && bytes != []
    ensures Consistent(Consumed(i, |bytes|)) && i.credit <= Consumed(i, |bytes|).credit
  {
    assert i.next + |bytes| - 1 in i.content;
  }

  lemma ReadDelivers(y: Endpoint, x: Outbox, bytes: Bytes)
    requires Delivers(y, x) && Agrees(y.in_.content, x.stream) && Spells(y.in_.content, y.in_.next, bytes)
    requires bytes != []
    ensures y.delivered + bytes <= x.stream && !y.ended
  {
    var all, n := y.delivered + bytes, y.in_.next;
    forall o: nat | n <= o < n + |bytes| ensures o < |x.stream| && x.stream[o] == all[o] {
      assert o in y.in_.content;
    }
    assert n + |bytes| - 1 in y.in_.content;
    hide Spells, Agrees;
    assert all == x.stream[..|all|];
  }

  lemma ReadMoves(k: Config, x: Endpoint, y: Endpoint, y': Endpoint, data: seq<Frame>, feedback: seq<Frame>,
                  records: set<SentChunk>, bytes: Bytes)
    requires Direction(k, x, y, data, feedback, records) && bytes != [] && Spells(y.in_.content, y.in_.next, bytes)
    requires y'.in_ == Consumed(y.in_, |bytes|) && y'.delivered == y.delivered + bytes && y'.ended == y.ended
    requires y'.pendingAck == y.pendingAck && y'.pendingCredit == y.pendingCredit
    ensures Direction(k, x, y', data, feedback, records)
  {
    ReadConsistent(y.in_, bytes);
    ReadDelivers(y, x.out, bytes);
    Trailing(feedback);
    CreditSteps(x, y, y', feedback, []);
    hide Retains, Faithful, Consistent, Agrees, InFlight, Scattered, Conserved, Complete, Acknowledged, Credited;
    hide Announced, Spells;
  }

  lemma ReadActs(k: Config, s: State, act: Action, s': State)
    requires Safe(k, s) && Acts(k, s, act, s') && act.ReadBytes?
    ensures Safe(k, s')
  {
    hide Direction;
    assert s' == s.(a := s'.a);
    ReadMoves(k, s.b, s.a, s'.a, s.ba, s.ab, s.dba, act.bytes);
    SenderOnly(k, s.a, s'.a, s.b, s.ab, s.ba, s.dab);
  }

  lemma EndMoves(k: Config, x: Endpoint, y: Endpoint, data: seq<Frame>, feedback: seq<Frame>, records: set<SentChunk>)
    requires Direction(k, x, y, data, feedback, records) && y.in_.final == Some(y.in_.next)
    ensures Direction(k, x, y.(ended := true), data, feedback, records)
  {
    hide Retains, Faithful, Consistent, Agrees, InFlight, Scattered, Conserved, Complete, Acknowledged, Credited;
    assert Announced(y.(ended := true)) == Announced(y);
  }

  lemma EndActs(k: Config, s: State, act: Action, s': State)
    requires Safe(k, s) && Acts(k, s, act, s') && act.SeeEnd?
    ensures Safe(k, s')
  {
    hide Direction;
    assert s' == s.(a := s.a.(ended := true));
    EndMoves(k, s.b, s.a, s.ba, s.ab, s.dba);
    SenderOnly(k, s.a, s'.a, s.b, s.ab, s.ba, s.dab);
  }

  // ----- whole runs

  lemma ActsKeep(k: Config, s: State, act: Action, s': State)
    requires Safe(k, s) && Acts(k, s, act, s')
    ensures Safe(k, s')
  {
    assert act.Deliver? ==> s.ba != [];
    hide Safe, Acts;
    match act {
      case WriteBytes(_, _) => WriterActs(k, s, act, s');
      case Flush => WriterActs(k, s, act, s');
      case CloseWriter => WriterActs(k, s, act, s');
      case Abort => StopActs(k, s, act, s');
      case Fail => StopActs(k, s, act, s');
      case TakeChunk => QueueActs(k, s, act, s');
      case ReturnChunk => QueueActs(k, s, act, s');
      case SplitChunk(_) => QueueActs(k, s, act, s');
      case SendDatagram => SendActs(k, s, act, s');
      case SendStream => SendActs(k, s, act, s');
      case ReplayDatagram(_) => ReplayActs(k, s, act, s');
      case ReplayStream(_) => ReplayActs(k, s, act, s');
      case Arrive(_, _, _) => ArriveActs(k, s, act, s');
      case Deliver(_, _) => DeliverActs(k, s, act, s');
      case SnapshotAck(_, _) => FeedbackActs(k, s, act, s');
      case SnapshotCredit => FeedbackActs(k, s, act, s');
      case SendAck => FeedbackActs(k, s, act, s');
      case SendCredit => FeedbackActs(k, s, act, s');
      case SendFin => FinActs(k, s, act, s');
      case ReadBytes(_) => ReadActs(k, s, act, s');
      case SeeEnd => EndActs(k, s, act, s');
    }
  }

  lemma StepKeeps(k: Config, s: State, act: Action, s': State)
    requires Safe(k, s) && Step(k, s, act, s')
    ensures Safe(k, s')
  {
    assert Safe(k, Swap(s)) && (Safe(k, Swap(s')) ==> Safe(k, s'));
    hide Safe, Acts, Swap;
    if Acts(k, s, act, s') {
      ActsKeep(k, s, act, s');
    } else {
      ActsKeep(k, Swap(s), act, Swap(s'));
    }
  }

  lemma OpensOut(e: Endpoint, initial: Bytes, received: Bytes, k: Config)
    requires Opens(e, initial, received) && k.capacity > 0
    ensures Retains(e.out) && Faithful(e.writer, e.out, k.capacity) && e.out.stream == initial
    ensures !e.out.finQueued && e.out.peerMax == 0
  {
    var zero := e.out.(limit := 0);
    assert e.out == zero.(limit := e.out.limit);
    FreshRetains(e.out);
    hide Retains, Accept;
    assert initial + [] == initial;
  }

  lemma FreshRetains(b: Outbox)
    requires b.sent == |b.stream| <= MAX_U64 && b.outbound == [] && b.hand.None? && b.replay == [] && b.peerMax == 0
    requires b.retainedBytes == b.retainedChunks == 0 && b.shutdown.None? && !b.finQueued && !b.reset
    ensures Retains(b)
  {
    assert b.Chain() == [];
  }

  lemma OpensIn(e: Endpoint, initial: Bytes, received: Bytes)
    requires Opens(e, initial, received)
    ensures Consistent(e.in_) && Agrees(e.in_.content, received)
    ensures forall o: nat :: o < |received| ==> o in e.in_.content
  {
    AcceptedAre(map[], 0, received);
  }

  lemma OpensDirection(k: Config, x: Endpoint, y: Endpoint, initial: Bytes, back: Bytes)
    requires Opens(x, initial, back) && Opens(y, back, initial) && k.capacity > 0
    ensures Direction(k, x, y, [], [], {})
  {
    OpensOut(x, initial, back, k);
    OpensIn(y, back, initial);
    hide Retains, Faithful, Consistent, Agrees, Keeps, Accept;
  }

  lemma InitIsSafe(k: Config, s: State, early: Bytes)
    requires Init(s, early) && k.capacity > 0
    ensures Safe(k, s)
  {
    OpensDirection(k, s.a, s.b, early, []);
    OpensDirection(k, s.b, s.a, [], early);
  }

  lemma {:induction false} RunIsSafe(k: Config, states: seq<State>, acts: seq<Action>, early: Bytes, i: nat)
    requires Run(k, states, acts, early) && i < |states|
    ensures Safe(k, states[i])
    decreases i
  {
    hide Safe, Step, Init;
    if i == 0 {
      InitIsSafe(k, states[0], early);
    } else {
      RunIsSafe(k, states, acts, early, i - 1);
      StepKeeps(k, states[i - 1], acts[i - 1], states[i]);
    }
  }
}
