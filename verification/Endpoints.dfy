/**
 * Two flow endpoints joined by a lossy, duplicating, reordering datagram channel and one reliable
 * control stream in each direction (src/flow.rs, src/recovery.rs). Every lock region is one step,
 * so the application and the flow task of an endpoint interleave freely.
 */
module Endpoints {
  import opened Results
  import opened Galois
  import opened Varint
  import opened AckRanges
  import opened Chunks
  import opened Gaps
  import opened Replay
  import opened Sending
  import opened Writing
  import opened Receiving

  datatype Frame =
    | DataFrame(chunk: SentChunk)
    | FinFrame(offset: nat)
    | AckFrame(contiguous: nat, ranges: seq<Range>)
    | CreditFrame(maximum: nat)

  /** `delivered` is everything the application has read; `ended` says it was told that the stream ended. */
  datatype Endpoint = Endpoint(
    writer: Writer,
    out: Outbox,
    in_: Inbox,
    delivered: Bytes,
    ended: bool,
    pendingAck: Option<(nat, seq<Range>)>,
    creditDirty: bool,
    pendingCredit: Option<nat>,
    finAfterReset: bool)

  /** Queued and travelling control frames, and every datagram record ever handed to the network. */
  datatype State = State(
    a: Endpoint, b: Endpoint,
    ab: seq<Frame>, ba: seq<Frame>,
    dab: set<SentChunk>, dba: set<SentChunk>)

  function Swap(s: State): State {
    State(s.b, s.a, s.ba, s.ab, s.dba, s.dab)
  }

  /** What both ends were configured with: the write buffer and the negotiated number of ranges. */
  datatype Config = Config(capacity: nat, maxRanges: nat)

  datatype Action =
    | WriteBytes(nodelay: bool, buf: Bytes)
    | Flush
    | CloseWriter
    | Abort
    | TakeChunk
    | ReturnChunk
    | SplitChunk(length: nat)
    | SendDatagram
    | SendStream
    | ReplayDatagram(index: nat)
    | ReplayStream(index: nat)
    | Arrive(chunk: SentChunk, after: Inbox, error: Option<RecoveryError>)
    | Deliver(after: Inbox, error: Option<RecoveryError>)
    | SnapshotAck(contiguous: nat, ranges: seq<Range>)
    | SnapshotCredit
    | SendAck
    | SendCredit
    | SendFin
    | ReadBytes(bytes: Bytes)
    | SeeEnd
    | Fail

  /** The task gives up: the application sees an error and nothing is kept. */
  function GivesUp(e: Endpoint): Endpoint {
    e.(out := Stop(e.out.(error := true)))
  }

  predicate AckAccepted(out: Outbox, maxRanges: nat, contiguous: nat, ranges: seq<Range>) {
    && contiguous <= |out.stream| && |ranges| <= maxRanges
    && forall i :: 0 <= i < |ranges| ==>
         ranges[i].start < ranges[i].end <= |out.stream| && ranges[i].end <= MAX_WIRE_OFFSET
  }

  /** `c` and `r` are the stored form of an announced set. */
  ghost predicate Stands(c: nat, r: seq<Range>, contiguous: nat, ranges: seq<Range>) {
    Canonical(c, r) && forall o: nat :: Acked(c, r, o) <==> Acked(contiguous, ranges, o)
  }

  /** src/flow.rs, `apply_control`: what a control frame does to the endpoint that receives it. */
  ghost predicate Applies(k: Config, e: Endpoint, frame: Frame, after: Inbox, error: Option<RecoveryError>,
                          e': Endpoint)
  {
    match frame
    case DataFrame(c) =>
      Receives(e.in_, after, c.offset, c.bytes, false, error) &&
        e' == (if error.None? then e.(in_ := after) else GivesUp(e))
    case FinFrame(offset) =>
      Finishes(e.in_, after, offset, error) && e' == (if error.None? then e.(in_ := after) else GivesUp(e))
    case AckFrame(contiguous, ranges) =>
      && error == (if AckAccepted(e.out, k.maxRanges, contiguous, ranges) then None else Some(InvalidRange))
      && (error.Some? ==> e' == GivesUp(e))
      && (error.None? ==> exists c, r :: Stands(c, r, contiguous, ranges) && e' == e.(out := Acknowledge(e.out, c, r)))
    case CreditFrame(maximum) =>
      && error == (if maximum < e.out.peerMax then Some(InvalidRange) else None)
      && e' == (if error.None? then e.(out := e.out.(peerMax := maximum)) else GivesUp(e))
  }

  /** One step of the endpoint `a`. */
  ghost predicate Acts(k: Config, s: State, act: Action, s': State) {
    var e := s.a;
    match act
    case WriteBytes(nodelay, buf) =>
      && |e.writer.buffer| <= k.capacity
      && var (written, w, b) := Write(e.writer, e.out, nodelay, k.capacity, buf);
         s' == s.(a := e.(writer := w, out := b))
    case Flush =>
      var (poll, w, b) := SendBuffer(e.writer, e.out);
      s' == s.(a := e.(writer := w, out := b))
    case CloseWriter =>
      var (poll, w, b) := Close(e.writer, e.out);
      s' == s.(a := e.(writer := w, out := b))
    case Abort =>
      && !e.out.stopped && !e.out.error
      && s' == s.(a := e.(out := Reset(e.out)))
    case TakeChunk =>
      && !e.out.stopped && e.out.hand.None? && e.out.outbound != []
      && s' == s.(a := e.(out := Take(e.out)))
    case ReturnChunk =>
      && e.out.hand.Some?
      && s' == s.(a := e.(out := PutBack(e.out)))
    case SplitChunk(length) =>
      && e.out.hand.Some? && 0 < length < |e.out.hand.value.bytes| && e.out.retainedChunks < ChunkLimit(e.out.limit)
      && s' == s.(a := e.(out := Split(e.out, length)))
    case SendDatagram =>
      && e.out.hand.Some? && e.out.hand.value.End() <= e.out.peerMax
      && s' == s.(a := e.(out := Retain(e.out)), dab := s.dab + {e.out.hand.value})
    case SendStream =>
      && e.out.hand.Some? && e.out.hand.value.End() <= e.out.peerMax
      && s' == s.(a := e.(out := Retain(e.out)), ab := s.ab + [DataFrame(e.out.hand.value)])
    case ReplayDatagram(i) =>
      && i < |e.out.replay|
      && s' == s.(dab := s.dab + {e.out.replay[i]})
    case ReplayStream(i) =>
      && i < |e.out.replay|
      && s' == s.(ab := s.ab + [DataFrame(e.out.replay[i])])
    case Arrive(c, after, error) =>
      && c in s.dba && Receives(e.in_, after, c.offset, c.bytes, false, error)
      && s' == s.(a := e.(in_ := after))
    case Deliver(after, error) =>
      && s.ba != [] && !e.out.stopped
      && Applies(k, e, s.ba[0], after, error, s'.a)
      && s' == s.(a := s'.a, ba := s.ba[1..])
    case SnapshotAck(contiguous, ranges) =>
      && Canonical(contiguous, ranges) && |ranges| <= k.maxRanges
      && (forall o: nat :: Acked(contiguous, ranges, o) <==> o in e.in_.content)
      && s' == s.(a := e.(pendingAck := Some((contiguous, ranges))))
    case SnapshotCredit =>
      && e.creditDirty
      && s' == s.(a := e.(creditDirty := false, pendingCredit := Some(e.in_.credit)))
    case SendAck =>
      && e.pendingAck.Some?
      && s' == s.(a := e.(pendingAck := None), ab := s.ab + [AckFrame(e.pendingAck.value.0, e.pendingAck.value.1)])
    case SendCredit =>
      && e.pendingCredit.Some?
      && s' == s.(a := e.(pendingCredit := None), ab := s.ab + [CreditFrame(e.pendingCredit.value)])
    case SendFin =>
      && !e.out.stopped && CanFinish(e.out)
      && s' == s.(a := e.(out := e.out.(finQueued := true), finAfterReset := e.out.reset),
                  ab := s.ab + [FinFrame(e.out.shutdown.value)])
    case ReadBytes(bytes) =>
      && !e.out.error && bytes != [] && Spells(e.in_.content, e.in_.next, bytes)
      && s' == s.(a := e.(in_ := Consumed(e.in_, |bytes|), delivered := e.delivered + bytes,
                          creditDirty := e.creditDirty || Consumed(e.in_, |bytes|).credit > e.in_.credit))
    case SeeEnd =>
      && !e.out.error && e.in_.final == Some(e.in_.next)
      && s' == s.(a := e.(ended := true))
    case Fail =>
      s' == s.(a := GivesUp(e))
  }

  ghost predicate Step(k: Config, s: State, act: Action, s': State) {
    Acts(k, s, act, s') || Acts(k, Swap(s), act, Swap(s'))
  }

  /** A fresh endpoint whose first bytes, if any, travelled with the opening of the flow. */
  ghost predicate Opens(e: Endpoint, initial: Bytes, received: Bytes) {
    && e.writer == Writer(initial, [], false)
    && e.out.(limit := 0) == Outbox(initial, |initial|, [], None, [], 0, 0, 0, 0, None, false, false, false, false)
    && |initial| <= MAX_U64
    && e.in_.content == Accept(map[], 0, received) && e.in_.next == 0 && e.in_.final.None?
    && |received| <= e.in_.window == e.in_.credit <= MAX_WIRE_OFFSET
    && e.delivered == [] && !e.ended && e.pendingAck.None? && e.creditDirty && e.pendingCredit.None? && !e.finAfterReset
  }

  ghost predicate Init(s: State, early: Bytes) {
    && Opens(s.a, early, []) && Opens(s.b, [], early)
    && s.ab == [] && s.ba == [] && s.dab == {} && s.dba == {}
  }

  /** A finite run of the two endpoints. */
  ghost predicate Run(k: Config, states: seq<State>, acts: seq<Action>, early: Bytes) {
    && |states| == |acts| + 1 && k.capacity > 0
    && Init(states[0], early)
    && forall i :: 0 <= i < |acts| ==> Step(k, states[i], acts[i], states[i + 1])
  }
}
