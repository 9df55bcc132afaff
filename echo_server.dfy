/**
 * The echo server's timed queue (src/bin/echo_server.rs): audio packets wait in a FIFO until
 * the delay after their arrival has passed, and are then sent back to whoever sent them.
 * `Instant::now()` is a millisecond clock passed to each call; the UDP socket is the outcome
 * of each send, passed in.
 */
module EchoServer {
  import opened Wrappers
  import P = Packet
  import Net

  /** A clock reading or a duration, in milliseconds. */
  type Millis = nat

  /** `BufferedPacket`: a packet, who sent it, and when it is due back. */
  datatype Buffered = Buffered(packet: P.Packet, sender: Net.SocketAddr, sendAt: Millis)

  /** How many packets at the front of the queue are due at `now`. */
  function ReadyCount(q: seq<Buffered>, now: Millis): (n: nat)
    ensures n <= |q|
    ensures forall i :: 0 <= i < n ==> q[i].sendAt <= now
    ensures n < |q| ==> q[n].sendAt > now
  {
    if q != [] && q[0].sendAt <= now then 1 + ReadyCount(q[1..], now) else 0
  }

  /** Due times never decrease from the front of the queue to the back. */
  predicate InOrder(q: seq<Buffered>)
  {
    forall i, j :: 0 <= i < j < |q| ==> q[i].sendAt <= q[j].sendAt
  }

  /** A packet due no earlier than the last one keeps the queue in order. */
  lemma AppendInOrder(q: seq<Buffered>, b: Buffered)
    requires InOrder(q)
    requires q != [] ==> q[|q| - 1].sendAt <= b.sendAt
    ensures InOrder(q + [b])
  {
    var r := q + [b];
    forall i, j | 0 <= i < j < |r|
      ensures r[i].sendAt <= r[j].sendAt
    {
      if j == |q| && i < |q| - 1 {
        assert r[i].sendAt <= r[|q| - 1].sendAt;
      }
    }
  }

  /** In an ordered queue, nothing after the ready prefix is due: draining leaves no due packet behind. */
  lemma NothingDueLeft(q: seq<Buffered>, now: Millis)
    requires InOrder(q)
    ensures forall i :: ReadyCount(q, now) <= i < |q| ==> q[i].sendAt > now
  {
    var n := ReadyCount(q, now);
    forall i | n <= i < |q|
      ensures q[i].sendAt > now
    {
      assert q[n].sendAt <= q[i].sendAt;
    }
  }

  /** What the receive loop does with a packet. */
  datatype Action = Enqueue | EchoNow | Ignore

  /** The receive loop's dispatch: audio is queued, keep-alives are echoed at once, the rest dropped. */
  function Dispatch(t: P.PacketType): (a: Action)
    ensures a == Enqueue <==> t == P.Audio
    ensures a == EchoNow <==> t == P.KeepAlive
  {
    match t
    case Audio => Enqueue
    case KeepAlive => EchoNow
    case _ => Ignore
  }

  /** How many of the sends succeeded. */
  function Successes(outcomes: seq<bool>): (n: nat)
    ensures n <= |outcomes|
  {
    if outcomes == [] then 0
    else Successes(outcomes[..|outcomes| - 1]) + if outcomes[|outcomes| - 1] then 1 else 0
  }

  /** The ready count is the one place where the due prefix stops. */
  lemma {:induction false} ReadyCountIs(q: seq<Buffered>, now: Millis, n: nat)
    requires n <= |q| && forall k :: 0 <= k < n ==> q[k].sendAt <= now
    requires n < |q| ==> q[n].sendAt > now
    ensures ReadyCount(q, now) == n
  {
    if n > 0 {
      ReadyCountIs(q[1..], now, n - 1);
    }
  }

  /** The loop of `get_ready_packets`: pop from the front while the front is due. */
  method TakeDue(q: seq<Buffered>, now: Millis) returns (ready: seq<Buffered>, rest: seq<Buffered>)
    ensures ready == q[..ReadyCount(q, now)] && rest == q[ReadyCount(q, now)..]
  {
    ready, rest := [], q;
    while rest != [] && rest[0].sendAt <= now
      invariant |ready| <= |q| && ready == q[..|ready|] && rest == q[|ready|..]
      invariant forall k :: 0 <= k < |ready| ==> q[k].sendAt <= now
      decreases |rest|
    {
      ready := ready + [rest[0]];
      assert ready == q[..|ready|];
      rest := rest[1..];
    }
    ReadyCountIs(q, now, |ready|);
  }

  /** `EchoState`. */
  class EchoState {
    var buffer: seq<Buffered>
    const delay: Millis
    var packetsReceived: nat
    var packetsSent: nat
    /** Packets handed to the sender task and not yet sent or dropped. */
    ghost var inFlight: nat

    /**
     * Every echo was of a received packet: the sent, the in-flight and the queued packets
     * together are at most those received.
     */
    ghost predicate Valid()
      reads this
    {
      packetsSent + inFlight + |buffer| <= packetsReceived
    }

    /** `EchoState::new`. */
    constructor (delay: Millis)
      ensures Valid()
      ensures this.delay == delay && buffer == [] && packetsReceived == 0 && packetsSent == 0
    {
      this.delay := delay;
      buffer := [];
      packetsReceived := 0;
      packetsSent := 0;
      inFlight := 0;
    }

    /** `add_packet`: queued at the back, due `delay` after `now`, and counted. */
    method AddPacket(packet: P.Packet, sender: Net.SocketAddr, now: Millis)
      modifies this
      ensures buffer == old(buffer) + [Buffered(packet, sender, now + delay)]
      ensures packetsReceived == old(packetsReceived) + 1
      ensures packetsSent == old(packetsSent) && inFlight == old(inFlight)
      ensures old(Valid()) ==> Valid()
    {
      buffer := buffer + [Buffered(packet, sender, now + delay)];
      packetsReceived := packetsReceived + 1;
    }

    /** `get_ready_packets`: the due packets at the front, taken off in order; the rest stay. */
    method GetReadyPackets(now: Millis) returns (ready: seq<Buffered>)
      modifies this
      ensures ready == old(buffer)[..ReadyCount(old(buffer), now)]
      ensures ready + buffer == old(buffer)
      ensures buffer == [] || buffer[0].sendAt > now
      ensures InOrder(old(buffer)) ==> forall i :: 0 <= i < |buffer| ==> buffer[i].sendAt > now
      ensures packetsReceived == old(packetsReceived) && packetsSent == old(packetsSent)
      ensures inFlight == old(inFlight) + |ready|
      ensures old(Valid()) ==> Valid()
    {
      ghost var start := buffer;
      var rest;
      ready, rest := TakeDue(buffer, now);
      buffer := rest;
      inFlight := inFlight + |ready|;
      if InOrder(start) {
        NothingDueLeft(start, now);
        forall i | 0 <= i < |buffer|
          ensures buffer[i].sendAt > now
        {
          assert buffer[i] == start[|ready| + i];
        }
      }
    }

    /**
     * The sender task's loop over one batch from `get_ready_packets`: each successful send is
     * counted, a failed one only logged. `outcomes[i]` is whether sending `ready[i]` succeeded.
     */
    method EchoBatch(ready: seq<Buffered>, outcomes: seq<bool>)
      requires |outcomes| == |ready| <= inFlight
      modifies this
      ensures packetsSent == old(packetsSent) + Successes(outcomes)
      ensures inFlight == old(inFlight) - |ready|
      ensures buffer == old(buffer) && packetsReceived == old(packetsReceived)
      ensures old(Valid()) ==> Valid()
    {
      for i := 0 to |ready|
        invariant packetsSent == old(packetsSent) + Successes(outcomes[..i])
        invariant inFlight == old(inFlight) - i
        invariant buffer == old(buffer) && packetsReceived == old(packetsReceived)
      {
        assert outcomes[..i + 1][..i] == outcomes[..i];
        if outcomes[i] {
          packetsSent := packetsSent + 1;
        }
        inFlight := inFlight - 1;
      }
      assert outcomes[..|ready|] == outcomes;
    }

    /** `time_until_next`: None for an empty queue, else how long until the front is due (zero once it is). */
    function TimeUntilNext(now: Millis): (r: Option<Millis>)
      reads this
      ensures r.None? <==> buffer == []
      ensures r.Some? ==> (r.value == 0 <==> buffer[0].sendAt <= now)
      ensures r.Some? ==> now + r.value >= buffer[0].sendAt
      ensures r.Some? && buffer[0].sendAt > now ==> now + r.value == buffer[0].sendAt
    {
      if buffer == [] then None
      else if buffer[0].sendAt > now then Some(buffer[0].sendAt - now)
      else Some(0)
    }
  }

  /**
   * With a fixed delay and a clock that never goes back, the queue stays in order: a packet
   * added at `now` is due no earlier than one added before.
   */
  lemma ArrivalsInOrder(q: seq<Buffered>, delay: Millis, lastNow: Millis, now: Millis, b: Buffered)
    requires InOrder(q)
    requires forall i :: 0 <= i < |q| ==> q[i].sendAt <= lastNow + delay
    requires lastNow <= now && b.sendAt == now + delay
    ensures InOrder(q + [b])
  {
    AppendInOrder(q, b);
  }

  /** Draining keeps an ordered queue ordered. */
  lemma DrainInOrder(q: seq<Buffered>, now: Millis)
    requires InOrder(q)
    ensures InOrder(q[ReadyCount(q, now)..])
  {
    var n := ReadyCount(q, now);
    var r := q[n..];
    forall i, j | 0 <= i < j < |r|
      ensures r[i].sendAt <= r[j].sendAt
    {
      assert r[i] == q[n + i] && r[j] == q[n + j];
    }
  }
}
