/** The promises of a flow over whole runs of two endpoints (src/flow.rs). */
module EndpointsTheorems {
  import opened Results
  import opened Galois
  import opened Varint
  import opened AckRanges
  import opened Chunks
  import opened Gaps
  import opened Replay
  import opened Sending
  import opened Writing
  import opened Receiving
  import opened Endpoints
  import opened EndpointsSafety

  /** What the reader `y` has seen of what the writer `x` was told is written. */
  ghost predicate InOrder(x: Endpoint, y: Endpoint) {
    && y.delivered <= x.writer.accepted
    && (y.ended ==>
      && x.out.shutdown == Some(|y.delivered|) && y.delivered == x.out.stream
      && (y.delivered == x.writer.accepted <==> !x.writer.late))
  }

  lemma DirectionInOrder(k: Config, x: Endpoint, y: Endpoint, data: seq<Frame>, feedback: seq<Frame>,
                         records: set<SentChunk>)
    requires Direction(k, x, y, data, feedback, records)
    ensures InOrder(x, y)
  {
    hide Conserved, Complete, Acknowledged, Credited, InFlight, Scattered, Consistent, Agrees;
    assert y.delivered <= x.writer.accepted by {
      assert forall i :: 0 <= i < |y.delivered| ==> y.delivered[i] == x.out.stream[i] == x.writer.accepted[i];
    }
  }

  /**
   * In every run, the bytes read are a prefix of the bytes accepted by writes, and the end of the
   * stream is seen only after every byte written before the shutdown was read. All accepted bytes
   * were read exactly when no write was accepted after the shutdown.
   */
  lemma StreamSafety(k: Config, states: seq<State>, acts: seq<Action>, early: Bytes, i: nat)
    requires Run(k, states, acts, early) && i < |states|
    ensures InOrder(states[i].a, states[i].b) && InOrder(states[i].b, states[i].a)
  {
    RunIsSafe(k, states, acts, early, i);
    var s := states[i];
    hide Direction, InOrder, Run;
    DirectionInOrder(k, s.a, s.b, s.ab, s.ba, s.dab);
    DirectionInOrder(k, s.b, s.a, s.ba, s.ab, s.dba);
  }

  /** A byte that entered the stream is with the receiver, or the sender can still send it. */
  ghost predicate NothingLost(x: Endpoint, y: Endpoint) {
    && (!x.out.reset && !x.out.stopped ==>
          forall o: nat :: o < |x.out.stream| ==> Keeps(x.out, o) || o in y.in_.content)
    && (x.out.finQueued && !x.finAfterReset ==> forall o: nat :: o < |x.out.stream| ==> o in y.in_.content)
    && (forall o: nat :: o in y.in_.content ==> o < |x.out.stream| && y.in_.content[o] == x.out.stream[o])
  }

  /** Acknowledged or not, nothing is lost on the way, and every announced end is reachable. */
  lemma Conservation(k: Config, states: seq<State>, acts: seq<Action>, early: Bytes, i: nat)
    requires Run(k, states, acts, early) && i < |states|
    ensures NothingLost(states[i].a, states[i].b) && NothingLost(states[i].b, states[i].a)
  {
    RunIsSafe(k, states, acts, early, i);
    hide Retains, Faithful, Consistent, InFlight, Scattered, Acknowledged, Credited, Delivers, Run, Keeps;
  }

  /** The sender never believes in more credit than the receiver has granted. */
  lemma CreditSafety(k: Config, states: seq<State>, acts: seq<Action>, early: Bytes, i: nat)
    requires Run(k, states, acts, early) && i < |states|
    ensures states[i].a.out.peerMax <= states[i].b.in_.credit && states[i].b.out.peerMax <= states[i].a.in_.credit
  {
    RunIsSafe(k, states, acts, early, i);
    hide Retains, Faithful, Consistent, Agrees, InFlight, Scattered, Acknowledged, Delivers, Conserved, Complete, Run;
  }

  /** What arrives at endpoint `a` in state `s`. */
  ghost predicate Harmless(s: State, act: Action) {
    && (act.Arrive? ==> ForRoom(act.error))
    && (act.Deliver? && s.ba != [] ==> Welcome(s.ba[0], act.error, s.b, s.a.in_))
  }

  /**
   * Two ends that follow the protocol never accuse each other: no record and no control frame is
   * refused for its range, its offset, its content or its end. The one exception is an end past
   * the receiver's credit, which is refused and can only have been announced after a reset had
   * discarded the bytes before it.
   */
  lemma NoProtocolErrors(k: Config, states: seq<State>, acts: seq<Action>, early: Bytes, i: nat)
    requires Run(k, states, acts, early) && i < |acts|
    ensures Acts(k, states[i], acts[i], states[i + 1]) ==> Harmless(states[i], acts[i])
    ensures Acts(k, Swap(states[i]), acts[i], Swap(states[i + 1])) ==> Harmless(Swap(states[i]), acts[i])
  {
    RunIsSafe(k, states, acts, early, i);
    assert Safe(k, Swap(states[i]));
    hide Safe, Acts, Run, Swap;
    if Acts(k, states[i], acts[i], states[i + 1]) {
      HarmlessStep(k, states[i], acts[i], states[i + 1]);
    }
    if Acts(k, Swap(states[i]), acts[i], Swap(states[i + 1])) {
      HarmlessStep(k, Swap(states[i]), acts[i], Swap(states[i + 1]));
    }
  }

  lemma HarmlessStep(k: Config, s: State, act: Action, s': State)
    requires Safe(k, s) && Acts(k, s, act, s')
    ensures Harmless(s, act)
  {
    hide Safe, Acts, Welcome;
    if act.Arrive? {
      ArriveActs(k, s, act, s');
    }
    if act.Deliver? && s.ba != [] {
      DeliverActs(k, s, act, s');
    }
  }

  /** A sender's credit only rises, and once it was told to finish its stream is fixed. */
  ghost predicate Later(x: Outbox, y: Outbox) {
    x.peerMax <= y.peerMax && (x.shutdown.Some? ==> y.shutdown.Some? && y.stream == x.stream)
  }

  lemma ActsLater(k: Config, s: State, act: Action, s': State)
    requires Acts(k, s, act, s')
    ensures Later(s.a.out, s'.a.out) && s'.b.out == s.b.out
  {
    hide Acts;
    if act.WriteBytes? || act.Flush? || act.CloseWriter? {
      WriterLater(k, s, act, s');
    } else if act.Deliver? {
      DeliverLater(k, s, act, s');
    } else if act.Abort? || act.TakeChunk? || act.ReturnChunk? || act.SplitChunk? {
      QueueLater(k, s, act, s');
    } else if act.SendDatagram? || act.SendStream? {
      SendLater(k, s, act, s');
    } else if act.SendFin? || act.Fail? {
      EndLater(k, s, act, s');
    } else {
      OthersLater(k, s, act, s');
    }
  }

  lemma WriterLater(k: Config, s: State, act: Action, s': State)
    requires Acts(k, s, act, s') && (act.WriteBytes? || act.Flush? || act.CloseWriter?)
    ensures Later(s.a.out, s'.a.out) && s'.b.out == s.b.out
  {
    hide Write, SendBuffer, Close, Later;
    if act.WriteBytes? {
      WriteLater(s.a.writer, s.a.out, act.nodelay, k.capacity, act.buf);
    }
    SendBufferLater(s.a.writer, s.a.out);
    CloseLater(s.a.writer, s.a.out);
  }

  lemma DeliverLater(k: Config, s: State, act: Action, s': State)
    requires Acts(k, s, act, s') && act.Deliver?
    ensures Later(s.a.out, s'.a.out) && s'.b.out == s.b.out
  {
    hide Applies, Later;
    AppliesLater(k, s.a, s.ba[0], act.after, act.error, s'.a);
  }

  lemma AppliesLater(k: Config, e: Endpoint, frame: Frame, after: Inbox, error: Option<RecoveryError>, e': Endpoint)
    requires Applies(k, e, frame, after, error, e')
    ensures Later(e.out, e'.out)
  {
    hide Receives, Finishes, Unacked, Size, AckAccepted, Stands;
  }

  lemma QueueLater(k: Config, s: State, act: Action, s': State)
    requires Acts(k, s, act, s') && (act.Abort? || act.TakeChunk? || act.ReturnChunk? || act.SplitChunk?)
    ensures Later(s.a.out, s'.a.out) && s'.b.out == s.b.out
  {
    hide Size, ChunkLimit;
  }

  lemma SendLater(k: Config, s: State, act: Action, s': State)
    requires Acts(k, s, act, s') && (act.SendDatagram? || act.SendStream?)
    ensures Later(s.a.out, s'.a.out) && s'.b.out == s.b.out
  {
    hide Write, SendBuffer, Close, Applies, Receives, Spells, Canonical, Acked;
  }

  lemma EndLater(k: Config, s: State, act: Action, s': State)
    requires Acts(k, s, act, s') && (act.SendFin? || act.Fail?)
    ensures Later(s.a.out, s'.a.out) && s'.b.out == s.b.out
  {
    hide CanFinish, Write, SendBuffer, Close, Applies, Receives, Spells, Canonical, Acked;
  }

  lemma OthersLater(k: Config, s: State, act: Action, s': State)
    requires Acts(k, s, act, s')
    requires !act.WriteBytes? && !act.Flush? && !act.CloseWriter? && !act.Deliver?
    requires !act.Abort? && !act.TakeChunk? && !act.ReturnChunk? && !act.SplitChunk?
    requires !act.SendDatagram? && !act.SendStream? && !act.SendFin? && !act.Fail?
    ensures s'.a.out == s.a.out && s'.b.out == s.b.out
  {
    hide Receives, Spells, Canonical, Acked, Write, SendBuffer, Close, Applies, Consumed;
  }

  lemma SendBufferLater(w: Writer, b: Outbox)
    ensures Later(b, SendBuffer(w, b).2)
  {
  }

  lemma CloseLater(w: Writer, b: Outbox)
    ensures Later(b, Close(w, b).2)
  {
    hide SendBuffer;
    SendBufferLater(w, b);
  }

  lemma WriteLater(w: Writer, b: Outbox, nodelay: bool, capacity: nat, buf: Bytes)
    requires |w.buffer| <= capacity
    ensures Later(b, Write(w, b, nodelay, capacity, buf).2)
  {
    hide SendBuffer, Buffer, Ready;
    SendBufferLater(w, b);
    var w', b' := SendBuffer(w, b).1, SendBuffer(w, b).2;
    forall v, more ensures Later(b', SendBuffer(Buffer(v, b', more), b').2) {
      SendBufferLater(Buffer(v, b', more), b');
    }
    forall more ensures Later(b, SendBuffer(Buffer(w, b, more), b).2) {
      SendBufferLater(Buffer(w, b, more), b);
    }
  }

  lemma {:induction false} RunLater(k: Config, states: seq<State>, acts: seq<Action>, early: Bytes, i: nat, j: nat)
    requires Run(k, states, acts, early) && i <= j < |states|
    ensures Later(states[i].a.out, states[j].a.out) && Later(states[i].b.out, states[j].b.out)
    decreases j
  {
    hide Acts, Init;
    if i < j {
      RunLater(k, states, acts, early, i, j - 1);
      if Acts(k, states[j - 1], acts[j - 1], states[j]) {
        ActsLater(k, states[j - 1], acts[j - 1], states[j]);
      } else {
        ActsLater(k, Swap(states[j - 1]), acts[j - 1], Swap(states[j]));
      }
    }
  }

  /** Endpoint `b` announces an end in state s, and endpoint `a` is about to read an announced end in state t. */
  ghost predicate Announces(k: Config, s: State, act: Action, s': State) {
    act.SendFin? && Acts(k, Swap(s), act, Swap(s')) && |s.b.out.stream| <= s.b.out.peerMax
  }

  ghost predicate ReadsEnd(k: Config, s: State, act: Action, s': State) {
    act.Deliver? && Acts(k, s, act, s') && s.ba != [] && s.ba[0].FinFrame?
  }

  /** What a sender can make sure of itself: an end announced within the credit it knows of is never refused. */
  lemma EndWithinCredit(k: Config, states: seq<State>, acts: seq<Action>, early: Bytes, i: nat, j: nat)
    requires Run(k, states, acts, early) && i < j < |acts|
    ensures Announces(k, states[i], acts[i], states[i + 1]) && ReadsEnd(k, states[j], acts[j], states[j + 1]) ==>
      acts[j].error.None?
    ensures
      (Announces(k, Swap(states[i]), acts[i], Swap(states[i + 1]))
       && ReadsEnd(k, Swap(states[j]), acts[j], Swap(states[j + 1]))) ==>
        acts[j].error.None?
  {
    RunLater(k, states, acts, early, i, j);
    RunIsSafe(k, states, acts, early, j);
    assert Safe(k, Swap(states[j]));
    hide Run, Safe, Acts, Swap;
    SwapSwaps(states[i], states[i + 1]);
    SwapSwaps(states[j], states[j + 1]);
    if Announces(k, states[i], acts[i], states[i + 1]) && ReadsEnd(k, states[j], acts[j], states[j + 1]) {
      EndAccepted(k, states[i], acts[i], states[i + 1], states[j], acts[j], states[j + 1]);
    }
    if && Announces(k, Swap(states[i]), acts[i], Swap(states[i + 1]))
       && ReadsEnd(k, Swap(states[j]), acts[j], Swap(states[j + 1]))
    {
      EndAccepted(k, Swap(states[i]), acts[i], Swap(states[i + 1]), Swap(states[j]), acts[j], Swap(states[j + 1]));
    }
  }

  lemma SwapSwaps(s: State, s': State)
    ensures Swap(Swap(s)) == s && Swap(s).a == s.b && Swap(s).b == s.a && Swap(Swap(s')) == s'
  {
  }

  lemma EndAccepted(k: Config, s: State, act: Action, s': State, t: State, read: Action, t': State)
    requires Announces(k, s, act, s') && ReadsEnd(k, t, read, t') && Safe(k, t) && Later(s.b.out, t.b.out)
    ensures read.error.None?
  {
    DeliverActs(k, t, read, t');
    assert s.b.out.shutdown.Some? by { FinishesOnly(k, s, act, s'); }
    SafeEnd(k, t);
    hide *;
    assert t.ba[0].FinFrame? && Welcome(t.ba[0], read.error, t.b, t.a.in_);
    WelcomeEnd(t.ba[0].offset, read.error, t.b, t.a.in_);
    LaterIs(s.b.out, t.b.out);
  }

  lemma FinishesOnly(k: Config, s: State, act: Action, s': State)
    requires act.SendFin? && Acts(k, Swap(s), act, Swap(s'))
    ensures s.b.out.shutdown.Some?
  {
  }

  lemma SafeEnd(k: Config, t: State)
    requires Safe(k, t) && t.ba != [] && t.ba[0].FinFrame?
    ensures t.ba[0].offset == |t.b.out.stream| && t.b.out.peerMax <= t.a.in_.credit
  {
    hide Retains, Faithful, Consistent, Agrees, Scattered, Acknowledged, Delivers, Conserved, Complete;
  }

  lemma WelcomeEnd(offset: nat, error: Option<RecoveryError>, sender: Endpoint, receiver: Inbox)
    requires Welcome(FinFrame(offset), error, sender, receiver)
    ensures error.Some? <==> offset > receiver.credit
  {
  }

  lemma LaterIs(x: Outbox, y: Outbox)
    requires Later(x, y) && x.shutdown.Some?
    ensures x.peerMax <= y.peerMax && y.stream == x.stream
  {
  }

  // ----- the two exceptions do happen

  /** An endpoint that has just been opened, with the given limits. */
  function Fresh(limit: nat, window: nat): Endpoint {
    Endpoint(
      Writer([], [], false),
      Outbox([], 0, [], None, [], 0, 0, limit, 0, None, false, false, false, false),
      Inbox(map[], 0, window, window, None),
      [], false, None, true, None, false)
  }

  lemma FreshOpens(limit: nat, window: nat)
    requires window <= MAX_WIRE_OFFSET
    ensures Opens(Fresh(limit, window), [], [])
  {
    assert Accept(map[], 0, []) == map[];
  }

  lemma Begin(k: Config, s: State, early: Bytes) returns (states: seq<State>, acts: seq<Action>)
    requires Init(s, early) && k.capacity > 0
    ensures Run(k, states, acts, early) && |acts| == 0 && |states| == 1 && states[0] == s
  {
    states, acts := [s], [];
  }

  lemma Extend(k: Config, states: seq<State>, acts: seq<Action>, early: Bytes, act: Action, s: State)
    returns (states': seq<State>, acts': seq<Action>)
    requires Run(k, states, acts, early) && |states| == |acts| + 1
    requires Acts(k, states[|acts|], act, s) || Acts(k, Swap(states[|acts|]), act, Swap(s))
    ensures Run(k, states', acts', early) && |acts'| == |acts| + 1 && |states'| == |acts'| + 1
    ensures states'[|acts|] == states[|acts|] && states'[|acts'|] == s && acts'[|acts|] == act
  {
    states', acts' := states + [s], acts + [act];
    hide Acts, Swap, Init;
  }

  lemma Finishing(k: Config, s: State, s': State)
    requires !s.a.out.stopped && CanFinish(s.a.out)
    requires s' == s.(a := s.a.(out := s.a.out.(finQueued := true), finAfterReset := s.a.out.reset),
                      ab := s.ab + [FinFrame(s.a.out.shutdown.value)])
    ensures Acts(k, s, SendFin, s')
  {
  }

  lemma Closing(k: Config, s: State, s': State)
    requires s.a.writer.buffer == [] && !s.a.out.error && s.a.out.shutdown.None?
    requires s' == s.(a := s.a.(out := s.a.out.(shutdown := Some(|s.a.out.stream|))))
    ensures Acts(k, s, CloseWriter, s')
  {
  }

  /** The end of the stream `offset` reaches endpoint `b`. */
  lemma Announcing(k: Config, s: State, offset: nat, after: Inbox, error: Option<RecoveryError>, s': State)
    requires s.ab == [FinFrame(offset)] && !s.b.out.stopped && Finishes(s.b.in_, after, offset, error)
    requires s' == s.(b := if error.None? then s.b.(in_ := after) else GivesUp(s.b), ab := [])
    ensures Acts(k, Swap(s), Deliver(after, error), Swap(s'))
  {
    assert [FinFrame(offset)][1..] == [];
  }

  lemma Ending(k: Config, s: State, s': State)
    requires !s.b.out.error && s.b.in_.final == Some(s.b.in_.next) && s' == s.(b := s.b.(ended := true))
    ensures Acts(k, Swap(s), SeeEnd, Swap(s'))
  {
  }

  lemma Aborting(k: Config, s: State, c: SentChunk, s': State)
    requires !s.a.out.stopped && !s.a.out.error && s.a.out.outbound == [c] && s.a.out.retainedBytes == |c.bytes|
    requires s.a.out.retainedChunks == 1
    requires s' == s.(a := s.a.(out := s.a.out.(error := true, reset := true, outbound := [], retainedBytes := 0,
                                                retainedChunks := 0)))
    ensures Acts(k, s, Abort, s')
  {
    SizeOne(c);
  }

  lemma Accepting(k: Config, s: State, nodelay: bool, buf: Bytes, w: Writer, b: Outbox, n: nat, s': State)
    requires |s.a.writer.buffer| <= k.capacity
    requires Write(s.a.writer, s.a.out, nodelay, k.capacity, buf) == (Accepted(n), w, b)
    requires s' == s.(a := s.a.(writer := w, out := b))
    ensures Acts(k, s, WriteBytes(nodelay, buf), s')
  {
  }

  /** Two bytes written into a fresh flow enter its stream at once. */
  lemma WritesTwo(b: Outbox)
    requires b == Fresh(64, 1).out
    ensures Write(Writer([], [], false), b, true, 2, [1, 2]) ==
      (Accepted(2), Writer([1, 2], [], false),
       b.(stream := [1, 2], outbound := [Chunk(0, [1, 2], ())], retainedBytes := 2, retainedChunks := 1))
  {
    var more: Bytes := [1, 2];
    var w, buffered := Writer([], [], false), Writer(more, more, false);
    assert more[..2] == more && [] + more == more;
    assert Room(w, 2, more) == more && Buffer(w, b, more) == buffered;
    assert Ready(b, 2) == Ok(true);
    assert SendBuffer(buffered, b) == (Done, Writer(more, [], false), Enqueue(b, more));
    assert Enqueue(b, more).outbound == [Chunk(0, more, ())];
  }

  /**
   * A reset that overtakes the flow task between its shutdown and its end-of-stream check lets the
   * task announce an end that lies past the peer's credit, which the peer calls a violation.
   */
  lemma ResetRace() returns (k: Config, states: seq<State>, acts: seq<Action>)
    ensures Run(k, states, acts, []) && acts != []
    ensures var n := |acts| - 1;
      && states[n].ab == [FinFrame(2)] && acts[n].Deliver? && acts[n].error == Some(FlowControl)
      && Acts(k, Swap(states[n]), acts[n], Swap(states[n + 1]))
  {
    k := Config(2, 1);
    var a0, b0 := Fresh(64, 1), Fresh(64, 1);
    var s0 := State(a0, b0, [], [], {}, {});
    var chunk: SentChunk := Chunk(0, [1, 2], ());
    var a1 := a0.(writer := Writer([1, 2], [], false),
                  out := a0.out.(stream := [1, 2], outbound := [chunk], retainedBytes := 2, retainedChunks := 1));
    var s1 := s0.(a := a1);
    var s2 := s1.(a := a1.(out := a1.out.(shutdown := Some(2))));
    var s3 := s2.(a := s2.a.(out := s2.a.out.(error := true, reset := true, outbound := [], retainedBytes := 0,
                                              retainedChunks := 0)));
    var s4 := s3.(a := s3.a.(out := s3.a.out.(finQueued := true), finAfterReset := true), ab := [FinFrame(2)]);
    var s5 := s4.(b := GivesUp(b0), ab := []);
    hide Acts, Write, Opens, Swap, GivesUp;
    FreshOpens(64, 1);
    WritesTwo(a0.out);
    Accepting(k, s0, true, [1, 2], a1.writer, a1.out, 2, s1);
    Closing(k, s1, s2);
    Aborting(k, s2, chunk, s3);
    Finishing(k, s3, s4);
    Announcing(k, s4, 2, b0.in_, Some(FlowControl), s5);
    hide Run, Step, Fresh;
    states, acts := Begin(k, s0, []);
    states, acts := Extend(k, states, acts, [], WriteBytes(true, [1, 2]), s1);
    states, acts := Extend(k, states, acts, [], CloseWriter, s2);
    states, acts := Extend(k, states, acts, [], Abort, s3);
    states, acts := Extend(k, states, acts, [], SendFin, s4);
    states, acts := Extend(k, states, acts, [], Deliver(b0.in_, Some(FlowControl)), s5);
  }

  /** One byte written with batching on, after the shutdown, is accepted into the buffer. */
  lemma WritesLate(b: Outbox)
    requires b == Fresh(64, 1).out.(shutdown := Some(0))
    ensures Write(Writer([], [], false), b, false, 2, [7]) == (Accepted(1), Writer([7], [7], true), b)
  {
    var more: Bytes := [7];
    assert more[..1] == more && [] + more == more;
  }

  /** A write that is accepted after the shutdown is never read, although the reader sees the end. */
  lemma LateWriteLost() returns (k: Config, states: seq<State>, acts: seq<Action>)
    ensures Run(k, states, acts, [])
    ensures var s := states[|acts|];
      s.b.ended && s.b.delivered == [] && s.a.writer.accepted == [7]
  {
    k := Config(2, 1);
    var a0, b0 := Fresh(64, 1), Fresh(64, 1);
    var s0 := State(a0, b0, [], [], {}, {});
    var s1 := s0.(a := a0.(out := a0.out.(shutdown := Some(0))));
    var s2 := s1.(a := s1.a.(writer := Writer([7], [7], true)));
    var s3 := s2.(a := s2.a.(out := s2.a.out.(finQueued := true)), ab := [FinFrame(0)]);
    var end := b0.in_.(final := Some(0));
    var s4 := s3.(b := b0.(in_ := end), ab := []);
    var s5 := s4.(b := s4.b.(ended := true));
    hide Acts, Write, Opens, Swap, GivesUp;
    FreshOpens(64, 1);
    WritesLate(s1.a.out);
    Closing(k, s0, s1);
    Accepting(k, s1, false, [7], s2.a.writer, s2.a.out, 1, s2);
    Finishing(k, s2, s3);
    Announcing(k, s3, 0, end, None, s4);
    Ending(k, s4, s5);
    hide Run, Step, Fresh;
    states, acts := Begin(k, s0, []);
    states, acts := Extend(k, states, acts, [], CloseWriter, s1);
    states, acts := Extend(k, states, acts, [], WriteBytes(false, [7]), s2);
    states, acts := Extend(k, states, acts, [], SendFin, s3);
    states, acts := Extend(k, states, acts, [], Deliver(end, None), s4);
    states, acts := Extend(k, states, acts, [], SeeEnd, s5);
  }
}
