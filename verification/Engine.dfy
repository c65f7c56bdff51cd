// The bounded capture queue. Its worker and the control thread meet only under one
// mutex, so every interleaving of the two is a sequence of the calls below.
module Engine {
  import opened Wrappers
  import opened Dissect

  /** The metadata kept of one packet; an address not found is the empty text. */
  datatype Packet = Packet(
    timestamp: int, wireBytes: nat, source: string, destination: string,
    sourcePort: Option<nat>, destinationPort: Option<nat>, protocol: Protocol)

  function Bytes(packets: seq<Packet>): nat {
    if packets == [] then 0 else Bytes(packets[..|packets| - 1]) + packets[|packets| - 1].wireBytes
  }

  lemma BytesSnoc(packets: seq<Packet>, p: Packet)
    ensures Bytes(packets + [p]) == Bytes(packets) + p.wireBytes
  {
    assert (packets + [p])[..|packets|] == packets;
  }

  /** A stream without the packets at some positions. */
  function Without(packets: seq<Packet>, positions: set<nat>): seq<Packet> {
    if packets == [] then []
    else
      var n := |packets| - 1;
      var before := Without(packets[..n], positions);
      if n in positions then before else before + [packets[n]]
  }

  /** Positions past the end do not matter. */
  lemma {:induction false} WithoutLater(packets: seq<Packet>, positions: set<nat>, n: nat)
    requires n >= |packets|
    ensures Without(packets, positions + {n}) == Without(packets, positions)
  {
    if packets != [] { WithoutLater(packets[..|packets| - 1], positions, n); }
  }

  lemma OneKept(packets: seq<Packet>, p: Packet, positions: set<nat>)
    requires forall i | i in positions :: i < |packets|
    ensures Without(packets + [p], positions) == Without(packets, positions) + [p]
  {
    assert (packets + [p])[..|packets|] == packets;
    assert |packets| !in positions;
  }

  lemma OneDropped(packets: seq<Packet>, p: Packet, positions: set<nat>)
    requires forall i | i in positions :: i < |packets|
    ensures Without(packets + [p], positions + {|packets|}) == Without(packets, positions)
    ensures |positions + {|packets|}| == |positions| + 1
  {
    assert (packets + [p])[..|packets|] == packets;
    WithoutLater(packets, positions, |packets|);
    assert |packets| !in positions;
  }

  class CaptureEngine {
    const capacity: nat
    var queue: seq<Packet>
    var packets: nat
    var wireBytes: nat
    var metadataDropped: nat
    var running: bool
    ghost var seen: seq<Packet>       // everything captured, in order
    ghost var accepted: seq<Packet>   // what the queue had room for, in order
    ghost var dropped: set<nat>       // the positions in `seen` of what it had no room for
    ghost var drained: seq<Packet>    // what the control thread has taken, in order

    /** Queue conservation. */
    ghost predicate Valid()
      reads this
    {
      && |queue| <= capacity
      && packets == |seen| && wireBytes == Bytes(seen)
      && drained + queue == accepted
      && packets == |drained| + |queue| + metadataDropped
      && Dropped() && |dropped| == metadataDropped
    }

    /** The accepted stream is what was captured without the dropped packets. */
    ghost predicate Dropped()
      reads `accepted, `seen, `dropped
    {
      accepted == Without(seen, dropped) && forall i | i in dropped :: i < |seen|
    }

    ghost method Record(packet: Packet, kept: bool)
      requires Dropped()
      modifies `accepted, `seen, `dropped
      ensures Dropped() && seen == old(seen) + [packet] && |dropped| == old(|dropped|) + if kept then 0 else 1
      ensures accepted == if kept then old(accepted) + [packet] else old(accepted)
      ensures dropped == if kept then old(dropped) else old(dropped) + {|old(seen)|}
    {
      hide Without;
      OneDropped(seen, packet, dropped);
      OneKept(seen, packet, dropped);
      if kept { accepted := accepted + [packet]; } else { dropped := dropped + {|seen|}; }
      seen := seen + [packet];
    }

    constructor (capacity: nat)
      requires capacity > 0
      ensures Valid() && this.capacity == capacity && queue == [] && packets == 0 && wireBytes == 0
      ensures metadataDropped == 0 && !running && seen == [] && accepted == [] && drained == []
    {
      this.capacity := capacity;
      queue, packets, wireBytes, metadataDropped, running := [], 0, 0, 0, false;
      seen, accepted, drained, dropped := [], [], [], {};
    }

    method Start()
      requires Valid()
      modifies this`running
      ensures Valid() && running
    {
      running := true;
    }

    method Stop()
      requires Valid()
      modifies this`running
      ensures Valid() && !running
    {
      running := false;
    }

    /** The locked part of one turn of the worker's loop. */
    method Receive(packet: Packet)
      requires Valid() && running
      modifies this
      ensures Valid() && running
      ensures seen == old(seen) + [packet] && drained == old(drained)
      ensures packets == old(packets) + 1 && wireBytes == old(wireBytes) + packet.wireBytes
      ensures queue == if old(|queue|) == capacity then old(queue) else old(queue) + [packet]
      ensures accepted == if old(|queue|) == capacity then old(accepted) else old(accepted) + [packet]
      ensures dropped == if old(|queue|) == capacity then old(dropped) + {|old(seen)|} else old(dropped)
      ensures metadataDropped == old(metadataDropped) + if old(|queue|) == capacity then 1 else 0
    {
      hide Bytes, CaptureEngine.Dropped;
      BytesSnoc(seen, packet);
      packets := packets + 1;
      wireBytes := wireBytes + packet.wireBytes;
      Record(packet, |queue| < capacity);
      if |queue| == capacity {
        metadataDropped := metadataDropped + 1;
      } else {
        queue := queue + [packet];
      }
    }

    /** Any number of turns of the worker between two calls of the control thread. */
    method Capture(arrivals: seq<Packet>)
      requires Valid() && (!running ==> arrivals == [])
      modifies this
      ensures Valid() && running == old(running)
      ensures seen == old(seen) + arrivals && drained == old(drained)
      ensures forall p | p in queue :: p in old(queue) || p in arrivals
      ensures arrivals == [] ==> queue == old(queue) && packets == old(packets) && wireBytes == old(wireBytes)
      ensures packets >= old(packets) && wireBytes >= old(wireBytes)
    {
      hide CaptureEngine.Dropped, Bytes;
      for i := 0 to |arrivals|
        invariant Valid() && running == old(running)
        invariant seen == old(seen) + arrivals[..i] && drained == old(drained)
        invariant forall p | p in queue :: p in old(queue) || p in arrivals
        invariant i == 0 ==> queue == old(queue) && packets == old(packets) && wireBytes == old(wireBytes)
        invariant packets >= old(packets) && wireBytes >= old(wireBytes)
      {
        Receive(arrivals[i]);
        assert arrivals[..i + 1] == arrivals[..i] + [arrivals[i]];
      }
      assert arrivals[..|arrivals|] == arrivals;
    }

    /** Takes up to `limit` packets off the front. */
    method Drain(limit: nat) returns (result: seq<Packet>)
      requires Valid()
      modifies this`queue, this`drained
      ensures Valid()
      ensures old(queue) == result + queue && |result| == Min(limit, old(|queue|))
      ensures drained == old(drained) + result
    {
      var count := Min(limit, |queue|);
      result := [];
      for i := 0 to count
        invariant old(queue) == result + queue && |result| == i
        invariant drained == old(drained) + result
        invariant drained + queue == accepted
      {
        result := result + [queue[0]];
        drained := drained + [queue[0]];
        queue := queue[1..];
      }
    }
  }
}
