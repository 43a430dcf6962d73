/** Reading control frames from a byte stream that arrives in arbitrary pieces (src/flow.rs). */
module ControlReader {
  import opened Results
  import opened Galois
  import opened Varint
  import opened SourceCodec
  import opened Control

  const CONTROL_DECODE_BATCH: nat := 128

  ghost predicate Sent(frames: seq<ControlFrame>, maxRanges: nat, maxBytes: nat) {
    forall i :: 0 <= i < |frames| ==>
      ValidFrame(frames[i], maxRanges) && |EncodeControl(frames[i], maxRanges)| <= maxBytes
  }

  /** The bytes that carry `frames` from the `k`-th on. */
  ghost function EncodeFrom(frames: seq<ControlFrame>, k: nat, maxRanges: nat): Bytes
    requires k <= |frames| && forall i :: 0 <= i < |frames| ==> ValidFrame(frames[i], maxRanges)
    decreases |frames| - k
  {
    if k == |frames| then [] else EncodeControl(frames[k], maxRanges) + EncodeFrom(frames, k + 1, maxRanges)
  }

  lemma WholeFrame(enc: Bytes, later: Bytes, input: Bytes, incoming: Bytes)
    requires input + incoming == enc + later && |enc| <= |input|
    ensures input == enc + input[|enc|..] && input[|enc|..] + incoming == later
  {
    assert (input + incoming)[..|enc|] == enc;
    assert (input + incoming)[|enc|..] == later;
  }

  lemma PartFrame(enc: Bytes, later: Bytes, input: Bytes, incoming: Bytes)
    requires input + incoming == enc + later && |input| < |enc|
    ensures input == enc[..|input|] && incoming != []
  {
    assert (input + incoming)[..|input|] == (enc + later)[..|input|];
  }

  /** What the decoder sees when its input is some beginning of the remaining frames. */
  lemma DecodeNext(frames: seq<ControlFrame>, k: nat, input: Bytes, incoming: Bytes, maxRanges: nat, maxBytes: nat)
    requires Sent(frames, maxRanges, maxBytes) && maxBytes <= MAX_WIRE_OFFSET && k <= |frames|
    requires input + incoming == EncodeFrom(frames, k, maxRanges)
    ensures match DecodeControl(input, maxRanges, maxBytes)
      case Ok((frame, rest)) =>
        k < |frames| && frame == frames[k] && |rest| < |input| &&
          rest + incoming == EncodeFrom(frames, k + 1, maxRanges)
      case Err(error) =>
        error == Truncated && (k == |frames| ==> input == [] && incoming == [])
        && (k < |frames| ==> |input| < |EncodeControl(frames[k], maxRanges)| <= maxBytes && incoming != [])
  {
    hide EncodeControl, ValidFrame, ParsePayload, ParseVarint;
    if k < |frames| {
      var enc, later := EncodeControl(frames[k], maxRanges), EncodeFrom(frames, k + 1, maxRanges);
      hide DecodeControl;
      if |enc| <= |input| {
        WholeFrame(enc, later, input, incoming);
        ControlRoundTrip(frames[k], input[|enc|..], maxRanges, maxBytes);
      } else {
        PartFrame(enc, later, input, incoming);
        ControlPrefix(frames[k], |input|, maxRanges, maxBytes);
      }
    }
  }

  datatype Polled = Progress | Blocked | Failed(error: CodecError) | LimitReached

  class Reader {
    var input: Bytes
    const maxInput: nat
    const maxRanges: nat

    /** The frames applied so far, in order. */
    ghost var applied: seq<ControlFrame>

    constructor (maxInput: nat, maxRanges: nat)
      ensures input == [] && applied == [] && this.maxInput == maxInput && this.maxRanges == maxRanges
    {
      input, applied := [], [];
      this.maxInput, this.maxRanges := maxInput, maxRanges;
    }

    /** After some beginning of the sent frames, exactly the rest is in the input or still to come. */
    ghost predicate InStep(frames: seq<ControlFrame>, incoming: Bytes)
      reads this
    {
      && 0 < maxInput <= MAX_WIRE_OFFSET && Sent(frames, maxRanges, maxInput)
      && |applied| <= |frames| && applied == frames[..|applied|]
      && input + incoming == EncodeFrom(frames, |applied|, maxRanges)
    }

    /** The decode loop of `poll_receive`, on any input; `frames` and `incoming` are what a peer may have sent. */
    method DecodeBatch(ghost frames: seq<ControlFrame>, ghost incoming: Bytes)
      returns (hitLimit: bool, failed: Option<CodecError>)
      modifies this
      ensures old(applied) <= applied
      ensures (hitLimit ==> |applied| == |old(applied)| + CONTROL_DECODE_BATCH && failed.None?)
      ensures old(InStep(frames, incoming)) ==> InStep(frames, incoming) && failed.None?
      ensures old(InStep(frames, incoming)) && !hitLimit ==>
        if |applied| == |frames| then input == [] && incoming == []
        else |input| < |EncodeControl(frames[|applied|], maxRanges)| <= maxInput && incoming != []
    {
      hide DecodeControl, EncodeControl, ValidFrame, EncodeFrom;
      var n := 0;
      while n < CONTROL_DECODE_BATCH
        invariant 0 <= n <= CONTROL_DECODE_BATCH
        invariant old(applied) <= applied && |applied| == |old(applied)| + n
        invariant old(InStep(frames, incoming)) ==> InStep(frames, incoming)
      {
        if InStep(frames, incoming) {
          DecodeNext(frames, |applied|, input, incoming, maxRanges, maxInput);
        }
        match DecodeControl(input, maxRanges, maxInput) {
          case Ok((frame, rest)) =>
            assert InStep(frames, incoming) ==> frames[..|applied| + 1] == applied + [frame];
            input, applied := rest, applied + [frame];
          case Err(error) =>
            failed := if error == Truncated then None else Some(error);
            return false, failed;
        }
        n := n + 1;
      }
      return true, None;
    }

    /**
     * src/flow.rs, `poll_receive`. Of the bytes still to come, the transport hands over the first
     * `offered`, but never more than there is room for. However the bytes of a sequence of frames are
     * cut, exactly these frames are applied, in order, and no limit is hit.
     */
    method PollReceive(incoming: Bytes, offered: nat, ghost frames: seq<ControlFrame>)
      returns (polled: Polled, taken: nat)
      modifies this
      ensures old(applied) <= applied && taken <= |incoming|
      ensures old(InStep(frames, incoming)) ==>
        && (polled.Progress? || polled.Blocked?) && InStep(frames, incoming[taken..])
        && (polled.Blocked? ==> taken == 0 && (offered == 0 || (incoming == [] && applied == frames && input == [])))
        && (polled.Progress? ==> taken > 0 || |applied| > |old(applied)|)
    {
      hide EncodeControl, ValidFrame, EncodeFrom;
      var hitLimit, failed := DecodeBatch(frames, incoming);
      taken, polled := 0, Progress;
      assert incoming[0..] == incoming;
      if hitLimit {
        return;
      }
      if failed.Some? {
        polled := Failed(failed.value);
        return;
      }
      var room := if |input| < maxInput then maxInput - |input| else 0;
      if room == 0 {
        polled := LimitReached;
        return;
      }
      taken := if offered < room then offered else room;
      taken := if taken < |incoming| then taken else |incoming|;
      if taken == 0 {
        polled := Blocked;
        return;
      }
      assert input + incoming == input + incoming[..taken] + incoming[taken..];
      input := input + incoming[..taken];
    }
  }

  /** Polling until nothing is left, with pieces of any sizes, applies exactly the frames that were sent. */
  method ReceiveAll(reader: Reader, stream: Bytes, cuts: seq<nat>, ghost frames: seq<ControlFrame>)
    requires reader.InStep(frames, stream) && cuts != [] && forall i :: 0 <= i < |cuts| ==> cuts[i] > 0
    modifies reader
    ensures reader.applied == frames && reader.input == []
  {
    hide EncodeControl, ValidFrame, EncodeFrom;
    var incoming, i, polled := stream, 0, Progress;
    while polled.Progress?
      invariant reader.InStep(frames, incoming) && 0 <= i < |cuts|
      invariant polled.Progress? || (reader.applied == frames && reader.input == [])
      decreases |incoming| + |frames| - |reader.applied|, if polled.Progress? then 1 else 0
    {
      var taken;
      polled, taken := reader.PollReceive(incoming, cuts[i], frames);
      incoming := incoming[taken..];
      i := if i + 1 < |cuts| then i + 1 else 0;
    }
  }

  // ----- the reader that stops at the end of one frame

  lemma FrameEndStays(input: Bytes, more: Bytes, maxBytes: nat)
    requires FrameEnd(input, maxBytes).Ok?
    ensures FrameEnd(input + more, maxBytes) == FrameEnd(input, maxBytes)
  {
    var all := input + more;
    assert all[1..] == input[1..] + more;
    var i1 := input[1..];
    var (length, n) := DecodeVarint(i1).value;
    assert (i1 + more)[1..n] == i1[1..n];
    hide FromBytes;
    assert DecodeVarint(i1 + more) == Ok((length, n));
  }

  /** src/wire.rs: how far a reader may go without reading past the first frame. */
  lemma TargetAdvances(input: Bytes, maxBytes: nat)
    requires |input| in {0, 2} || (|input| > 2 && |input| == 1 + Width(input[1])) ||
        FrameEnd(input, maxBytes) == Ok(|input|)
    ensures ReadTarget(input, maxBytes).Ok? ==>
      var target := ReadTarget(input, maxBytes).value;
      && |input| <= target <= maxBytes
      && (target == |input| <==> FrameEnd(input, maxBytes) == Ok(|input|))
      && (FrameEnd(input, maxBytes).Err? ==>
           (target == 2 && |input| == 0) || (|input| == 2 && target == 1 + Width(input[1]) > 2))
      && (FrameEnd(input, maxBytes).Ok? ==> FrameEnd(input, maxBytes) == Ok(target))
  {
    hide FromBytes, Minimum;
  }

  /**
   * src/flow.rs, `read_control_bytes`. `stream` is everything the peer will ever send; an error is a
   * malformed or oversized header, or the end of the stream inside the frame.
   */
  method ReadControlBytes(stream: Bytes, maxBytes: nat) returns (encoded: Option<Bytes>)
    ensures encoded.Some? ==> encoded.value <= stream && FrameEnd(encoded.value, maxBytes) == Ok(|encoded.value|)
    ensures forall kind: byte, payload: Bytes, rest: Bytes ::
      stream == Framed(kind, payload) + rest && |Framed(kind, payload)| <= maxBytes <= MAX_WIRE_OFFSET ==>
        encoded == Some(Framed(kind, payload))
  {
    hide FrameEnd, ReadTarget, Framed;
    var n := 0;
    while true
      invariant 0 <= n <= |stream| && n <= maxBytes
      invariant n in {0, 2} || (n > 2 && n == 1 + Width(stream[1])) || FrameEnd(stream[..n], maxBytes) == Ok(n)
      invariant forall kind: byte, payload: Bytes, rest: Bytes ::
        stream == Framed(kind, payload) + rest && |Framed(kind, payload)| <= maxBytes <= MAX_WIRE_OFFSET ==>
          n <= |Framed(kind, payload)|
      decreases maxBytes - n
    {
      var input := stream[..n];
      TargetAdvances(input, maxBytes);
      StaysInside(stream, n, maxBytes);
      var target := ReadTarget(input, maxBytes);
      if target.Err? {
        return None;
      }
      if target.value == n {
        return Some(input);
      }
      if target.value > |stream| {
        return None;
      }
      if FrameEnd(input, maxBytes).Ok? {
        assert stream[..target.value] == input + stream[n..target.value];
        FrameEndStays(input, stream[n..target.value], maxBytes);
      }
      n := target.value;
    }
  }

  /**
   * On a stream that begins with a frame, the next target lies in that frame, and at its end only when it is complete.
   */
  lemma StaysInside(stream: Bytes, n: nat, maxBytes: nat)
    requires n <= |stream|
    ensures forall kind: byte, payload: Bytes, rest: Bytes ::
      stream == Framed(kind, payload) + rest && n <= |Framed(kind, payload)| <= maxBytes <= MAX_WIRE_OFFSET ==>
        && ReadTarget(stream[..n], maxBytes).Ok? && ReadTarget(stream[..n], maxBytes).value <= |Framed(kind, payload)|
        && (ReadTarget(stream[..n], maxBytes).value == n ==> stream[..n] == Framed(kind, payload))
  {
    forall kind: byte, payload: Bytes, rest: Bytes |
      stream == Framed(kind, payload) + rest && n <= |Framed(kind, payload)| <= maxBytes <= MAX_WIRE_OFFSET
      ensures ReadTarget(stream[..n], maxBytes).Ok?
      ensures ReadTarget(stream[..n], maxBytes).value <= |Framed(kind, payload)|
      ensures ReadTarget(stream[..n], maxBytes).value == n ==> stream[..n] == Framed(kind, payload)
    {
      hide Framed, ReadTarget;
      var enc := Framed(kind, payload);
      assert stream[..n] == enc[..n];
      CutFrame(kind, payload, n, maxBytes);
      assert enc[..|enc|] == enc;
    }
  }
}
