/** The fixed pool of packet buffers behind a host socket (src/packet_ring.rs). */
module PacketRing {
  import opened Results
  import opened Galois
  import opened Varint

  datatype RingError = TooLarge | BufferTooSmall | Full

  class PacketRing {
    var queued: seq<Bytes>
    var free: nat
    const capacity: nat
    const slotCapacity: nat

    /** Buffers that are out on a lease, and everything that was ever queued and taken. */
    ghost var leased: nat
    ghost var pushed: seq<Bytes>
    ghost var popped: seq<Bytes>

    /** Every buffer has one owner, and packets leave in the order in which they came. */
    ghost predicate Valid()
      reads this
    {
      && |queued| + free + leased == capacity && pushed == popped + queued
      && forall i :: 0 <= i < |queued| ==> |queued[i]| <= slotCapacity
    }

    constructor (capacity: nat, slotCapacity: nat)
      requires capacity > 0 && slotCapacity > 0
      ensures Valid() && queued == [] && free == capacity && pushed == [] && popped == [] && leased == 0
      ensures this.capacity == capacity && this.slotCapacity == slotCapacity
    {
      this.capacity, this.slotCapacity := capacity, slotCapacity;
      queued, free := [], capacity;
      leased, pushed, popped := 0, [], [];
    }

    /** src/packet_ring.rs, `write`: holding a buffer reserves a queue slot. */
    method Write() returns (ok: bool)
      requires Valid()
      modifies this
      ensures Valid() && (ok <==> old(free) > 0) && queued == old(queued) && pushed == old(pushed)
      ensures popped == old(popped)
      ensures leased == old(leased) + if ok then 1 else 0
    {
      ok := free > 0;
      if ok {
        free, leased := free - 1, leased + 1;
      }
    }

    /**
     * src/packet_ring.rs, `WritePacket::consume`: the buffer is queued, or returns to the pool if the packet is too
     * long for it.
     */
    method Commit(packet: Bytes)
      requires Valid() && leased > 0
      modifies this
      ensures Valid() && leased == old(leased) - 1 && popped == old(popped)
      ensures if |packet| <= slotCapacity then queued == old(queued) + [packet] && pushed == old(pushed) + [packet]
              else queued == old(queued) && pushed == old(pushed)
    {
      if |packet| <= slotCapacity {
        assert popped + (queued + [packet]) == popped + queued + [packet];
        queued, pushed := queued + [packet], pushed + [packet];
      } else {
        free := free + 1;
      }
      leased := leased - 1;
    }

    /** src/packet_ring.rs, `recycle`. */
    method Recycle()
      requires Valid() && leased > 0
      modifies this
      ensures Valid() && leased == old(leased) - 1 && free == old(free) + 1 && queued == old(queued)
      ensures pushed == old(pushed) && popped == old(popped)
    {
      free, leased := free + 1, leased - 1;
    }

    /** src/packet_ring.rs, `push_copy`. */
    method PushCopy(packet: Bytes) returns (error: Option<RingError>)
      requires Valid()
      modifies this
      ensures Valid() && leased == old(leased) && popped == old(popped)
      ensures error == if |packet| > slotCapacity then Some(TooLarge) else if old(free) == 0 then Some(Full) else None
      ensures pushed == old(pushed) + if error.None? then [packet] else []
    {
      if |packet| > slotCapacity {
        return Some(TooLarge);
      }
      var ok := Write();
      if !ok {
        return Some(Full);
      }
      Commit(packet);
      return None;
    }

    /** src/packet_ring.rs, `pop_into`: the oldest packet, or nothing changed. */
    method PopInto(output: array<byte>) returns (res: Result<Option<nat>, RingError>)
      requires Valid()
      modifies this, output
      ensures Valid() && leased == old(leased) && pushed == old(pushed)
      ensures old(queued) == [] ==> res == Ok(None)
      ensures old(queued) != [] && |old(queued)[0]| > output.Length ==> res == Err(BufferTooSmall)
      ensures old(queued) != [] && |old(queued)[0]| <= output.Length ==>
        && res == Ok(Some(|old(queued)[0]|)) && queued == old(queued)[1..] && popped == old(popped) + [old(queued)[0]]
        && output[..|old(queued)[0]|] == old(queued)[0]
      ensures (res.Err? || res.value.None?) ==> queued == old(queued) && output[..] == old(output[..])
    {
      if queued == [] {
        return Ok(None);
      }
      var packet := queued[0];
      if |packet| > output.Length {
        return Err(BufferTooSmall);
      }
      assert queued == [packet] + queued[1..];
      queued, popped, leased := queued[1..], popped + [packet], leased + 1;
      forall i | 0 <= i < |packet| {
        output[i] := packet[i];
      }
      Recycle();
      return Ok(Some(|packet|));
    }
  }
}
