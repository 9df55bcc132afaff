/**
 * A connection to one remote peer (src/network/connection.rs): its state machine, the guards
 * on connecting and sending, and the round-trip-time bookkeeping of latency pings and pongs.
 */
module Connection {
  import opened Bytes
  import opened Ints
  import opened Wrappers
  import opened Net
  import opened Packet
  import Collections

  const RTT_SAMPLE_COUNT: nat := 10
  const MAX_PENDING_PINGS: nat := 10

  // ----- The state machine -----

  datatype ConnectionState =
    Disconnected | Connecting | GatheringCandidates | CheckingConnectivity | Connected | Reconnecting | Failed

  /** `state as u8`, the `repr(u8)` discriminant. */
  function StateToU8(s: ConnectionState): (b: byte)
    ensures b <= 6
  {
    match s
    case Disconnected => 0
    case Connecting => 1
    case GatheringCandidates => 2
    case CheckingConnectivity => 3
    case Connected => 4
    case Reconnecting => 5
    case Failed => 6
  }

  /** `ConnectionState::from_u8`: any byte above 6 reads as Disconnected. */
  function StateFromU8(b: byte): (s: ConnectionState)
    ensures b > 6 ==> s == Disconnected
  {
    match b
    case 0 => Disconnected
    case 1 => Connecting
    case 2 => GatheringCandidates
    case 3 => CheckingConnectivity
    case 4 => Connected
    case 5 => Reconnecting
    case 6 => Failed
    case _ => Disconnected
  }

  /** The atomic byte always decodes to the state last stored. */
  lemma StateRoundTrip(s: ConnectionState)
    ensures StateFromU8(StateToU8(s)) == s
  {
  }

  /** Distinct states are stored as distinct bytes, and every byte up to 6 names a state. */
  lemma StateBytesExact(b: byte)
    requires b <= 6
    ensures StateToU8(StateFromU8(b)) == b
  {
  }

  /** Connected alone: the stored byte is 4. */
  predicate IsConnected(s: ConnectionState)
    ensures IsConnected(s) <==> StateToU8(s) == 4
  {
    s == Connected
  }

  /** The three set-up states, stored as bytes 1 to 3. */
  predicate IsConnecting(s: ConnectionState)
    ensures IsConnecting(s) <==> 1 <= StateToU8(s) <= 3
  {
    s in {Connecting, GatheringCandidates, CheckingConnectivity}
  }

  /** Audio may flow while connected or reconnecting: bytes 4 and 5. */
  predicate CanTransmit(s: ConnectionState)
    ensures CanTransmit(s) <==> StateToU8(s) == 4 || StateToU8(s) == 5
  {
    s == Connected || s == Reconnecting
  }

  /**
   * The three predicates: connected is Connected alone; connecting is the three set-up states;
   * transmitting is Connected or Reconnecting. No connecting state may transmit.
   */
  lemma StatePredicates(s: ConnectionState)
    ensures IsConnected(s) <==> s.Connected?
    ensures IsConnecting(s) <==> s.Connecting? || s.GatheringCandidates? || s.CheckingConnectivity?
    ensures CanTransmit(s) <==> s.Connected? || s.Reconnecting?
    ensures IsConnecting(s) ==> !CanTransmit(s) && !IsConnected(s)
    ensures IsConnected(s) ==> CanTransmit(s)
  {
  }

  // ----- Round-trip time -----

  /**
   * The pending-ping table after `create_ping` sends sequence `pingSeq` at `now`: when ten pings are
   * already pending, the numerically smallest sequence is evicted first.
   */
  ghost function PendingAfterPing(pending: map<u32, nat>, pingSeq: u32, now: nat): (r: map<u32, nat>)
    ensures pingSeq in r && r[pingSeq] == now
    ensures |pending| <= MAX_PENDING_PINGS ==> |r| <= MAX_PENDING_PINGS
    ensures forall k :: k in r ==> k == pingSeq || k in pending
    ensures |pending| < MAX_PENDING_PINGS ==> forall k :: k in pending && k != pingSeq ==> k in r && r[k] == pending[k]
    ensures |pending| >= MAX_PENDING_PINGS ==>
      var oldest := Collections.Min(pending.Keys);
      (oldest != pingSeq ==> oldest !in r)
      && forall k :: k in pending && k != pingSeq && k != oldest ==> k in r && r[k] == pending[k]
  {
    if |pending| >= MAX_PENDING_PINGS then
      assert |pending.Keys| == |pending|;
      var oldest := Collections.Min(pending.Keys);
      var kept := pending - {oldest};
      assert kept.Keys == pending.Keys - {oldest};
      assert |kept| == |pending| - 1;
      kept[pingSeq := now]
    else
      pending[pingSeq := now]
  }

  /** The sample window after a new RTT sample: the newest `RTT_SAMPLE_COUNT` samples, oldest dropped first. */
  function SamplesAfter(samples: seq<real>, rtt: real): (r: seq<real>)
    ensures |samples| <= RTT_SAMPLE_COUNT ==> |r| <= RTT_SAMPLE_COUNT
    ensures r != [] && r[|r| - 1] == rtt
    ensures |samples| < RTT_SAMPLE_COUNT ==> r == samples + [rtt]
    ensures |samples| >= RTT_SAMPLE_COUNT ==> r == samples[1..] + [rtt]
  {
    if |samples| >= RTT_SAMPLE_COUNT then samples[1..] + [rtt] else samples + [rtt]
  }

  /** The smoothed RTT: the first sample as it is, then an exponential average with weight 1/8 on the new sample. */
  function SmoothedRtt(current: real, sample: real): (r: real)
    ensures current == 0.0 ==> r == sample
    ensures current != 0.0 && current <= sample ==> current <= r <= sample
    ensures current != 0.0 && sample <= current ==> sample <= r <= current
  {
    if current == 0.0 then sample else (1.0 - 0.125) * current + 0.125 * sample
  }

  function Abs(x: real): real { if x < 0.0 then -x else x }

  /** The jitter: an exponential average, weight 1/4, of how far the sample lies from the smoothed RTT. */
  function UpdatedJitter(jitter: real, sample: real, smoothed: real): (r: real)
    ensures jitter >= 0.0 ==> r >= 0.0
    ensures r == 0.75 * jitter + 0.25 * Abs(sample - smoothed)
  {
    (1.0 - 0.25) * jitter + 0.25 * Abs(sample - smoothed)
  }

  /** `RttMeasurement`. Clock readings (`Instant`) are microsecond counts passed in by the caller. */
  class RttMeasurement {
    var rttMs: real
    var jitterMs: real
    var pendingPings: map<u32, nat>
    var rttSamples: seq<real>
    var nextPingSeq: u32
    var timeReference: nat

    predicate Valid()
      reads this
    {
      |pendingPings| <= MAX_PENDING_PINGS && |rttSamples| <= RTT_SAMPLE_COUNT
    }

    /** `RttMeasurement::default`, with the reference instant taken at `now`. */
    constructor(now: nat)
      ensures Valid()
      ensures rttMs == 0.0 && jitterMs == 0.0 && pendingPings == map[] && rttSamples == []
      ensures nextPingSeq == 0 && timeReference == now
    {
      rttMs := 0.0;
      jitterMs := 0.0;
      pendingPings := map[];
      rttSamples := [];
      nextPingSeq := 0;
      timeReference := now;
    }

    /** `create_ping`: hand out the next ping sequence, remember when it was sent, and evict the oldest ping when ten are pending. */
    method CreatePing(now: nat) returns (ping: Ping)
      requires Valid() && timeReference <= now
      modifies this
      ensures Valid()
      ensures ping == Ping(AsU64(now - old(timeReference)), old(nextPingSeq))
      ensures nextPingSeq == WrappingAdd(old(nextPingSeq), 1)
      ensures pendingPings == PendingAfterPing(old(pendingPings), old(nextPingSeq), now)
      ensures rttMs == old(rttMs) && jitterMs == old(jitterMs) && rttSamples == old(rttSamples)
      ensures timeReference == old(timeReference)
    {
      var pingSeq := nextPingSeq;
      nextPingSeq := WrappingAdd(nextPingSeq, 1);
      if |pendingPings| >= MAX_PENDING_PINGS {
        assert |pendingPings.Keys| == |pendingPings|;
        Collections.MinExists(pendingPings.Keys);
        var oldest :| oldest in pendingPings && forall k :: k in pendingPings ==> oldest <= k;
        ghost var least := Collections.Min(pendingPings.Keys);
        assert oldest <= least && least <= oldest;
        pendingPings := pendingPings - {oldest};
      }
      pendingPings := pendingPings[pingSeq := now];
      ping := Ping(AsU64(now - timeReference), pingSeq);
    }

    /**
     * `process_pong`: a pong for a pending ping retires it and feeds its round trip, in
     * milliseconds, into the sample window, the smoothed RTT and the jitter; any other pong
     * changes nothing.
     */
    method ProcessPong(pong: Pong, now: nat)
      requires Valid()
      requires forall k :: k in pendingPings ==> pendingPings[k] <= now
      modifies this
      ensures Valid()
      ensures timeReference == old(timeReference) && nextPingSeq == old(nextPingSeq)
      ensures pong.pingSequence !in old(pendingPings) ==>
        pendingPings == old(pendingPings) && rttMs == old(rttMs) && jitterMs == old(jitterMs)
        && rttSamples == old(rttSamples)
      ensures pong.pingSequence in old(pendingPings) ==>
        var rtt := (now - old(pendingPings)[pong.pingSequence]) as real / 1000.0;
        pendingPings == old(pendingPings) - {pong.pingSequence}
        && rttSamples == SamplesAfter(old(rttSamples), rtt)
        && rttMs == SmoothedRtt(old(rttMs), rtt)
        && jitterMs == UpdatedJitter(old(jitterMs), rtt, rttMs)
    {
      if pong.pingSequence in pendingPings {
        var sent := pendingPings[pong.pingSequence];
        pendingPings := pendingPings - {pong.pingSequence};
        assert pendingPings.Keys <= old(pendingPings).Keys;
        Collections.SubsetCard(pendingPings.Keys, old(pendingPings).Keys);
        var rtt := (now - sent) as real / 1000.0;
        rttSamples := SamplesAfter(rttSamples, rtt);
        rttMs := SmoothedRtt(rttMs, rtt);
        jitterMs := UpdatedJitter(jitterMs, rtt, rttMs);
      }
    }
  }

  // ----- The connection -----

  /** `Connection`, less its socket, tasks and callbacks. `last_error` holds the error its message is rendered from. */
  class Connection {
    var state: ConnectionState
    var lastError: Option<NetworkError>
    var sequence: u32
    var packetsSent: nat
    var bytesSent: nat
    var remoteAddr: SocketAddr
    var connectionStart: Option<nat>

    /** `Connection::new`: disconnected, nothing sent, remote address 0.0.0.0:0. */
    constructor()
      ensures state == Disconnected && lastError.None? && sequence == 0
      ensures packetsSent == 0 && bytesSent == 0 && connectionStart.None?
      ensures remoteAddr == SocketAddr(V4(0, 0, 0, 0), 0)
    {
      state := Disconnected;
      lastError := None;
      sequence := 0;
      packetsSent := 0;
      bytesSent := 0;
      remoteAddr := SocketAddr(V4(0, 0, 0, 0), 0);
      connectionStart := None;
    }

    /** `set_state`: any state but Failed also clears the recorded error. */
    method SetState(s: ConnectionState)
      modifies this
      ensures state == s
      ensures lastError == if s == Failed then old(lastError) else None
      ensures sequence == old(sequence) && packetsSent == old(packetsSent) && bytesSent == old(bytesSent)
      ensures remoteAddr == old(remoteAddr) && connectionStart == old(connectionStart)
    {
      if s != Failed {
        lastError := None;
      }
      state := s;
    }

    /** `set_failed`: record the error and enter Failed. */
    method SetFailed(e: NetworkError)
      modifies this
      ensures state == Failed && lastError == Some(e)
      ensures sequence == old(sequence) && packetsSent == old(packetsSent) && bytesSent == old(bytesSent)
      ensures remoteAddr == old(remoteAddr) && connectionStart == old(connectionStart)
    {
      lastError := Some(e);
      state := Failed;
    }

    /** `next_sequence`: the atomic counter, wrapping at 2^32. */
    method NextSequence() returns (s: u32)
      modifies this
      ensures s == old(sequence) && sequence == WrappingAdd(old(sequence), 1)
      ensures state == old(state) && lastError == old(lastError)
      ensures packetsSent == old(packetsSent) && bytesSent == old(bytesSent)
      ensures remoteAddr == old(remoteAddr) && connectionStart == old(connectionStart)
    {
      s := sequence;
      sequence := WrappingAdd(sequence, 1);
    }

    /**
     * `connect`: refused when already Connected; otherwise Connecting, one keep-alive sent
     * (`sent` is what the socket reports), then the start time and Connected. A failed send
     * leaves the connection Connecting.
     */
    method Connect(remote: SocketAddr, now: nat, sent: Result<Unit, NetworkError>) returns (r: Result<Unit, NetworkError>)
      modifies this
      ensures old(state) == Connected ==>
        (r == Err(AlreadyConnected) && state == Connected
         && lastError == old(lastError) && sequence == old(sequence) && remoteAddr == old(remoteAddr)
         && connectionStart == old(connectionStart))
      ensures old(state) != Connected ==>
        r == sent && remoteAddr == remote && sequence == WrappingAdd(old(sequence), 1) && lastError.None?
        && (sent.Ok? ==> state == Connected && connectionStart == Some(now))
        && (sent.Err? ==> state == Connecting && connectionStart == old(connectionStart))
      ensures packetsSent == old(packetsSent) && bytesSent == old(bytesSent)
    {
      if state == Connected {
        return Err(AlreadyConnected);
      }
      remoteAddr := remote;
      SetState(Connecting);
      var _ := NextSequence();
      if sent.Err? {
        return sent;
      }
      connectionStart := Some(now);
      SetState(Connected);
      assert sent.value == Unit;
      return Ok(Unit);
    }

    /** `disconnect`: back to Disconnected, which also clears the recorded error. */
    method Disconnect()
      modifies this
      ensures state == Disconnected && lastError.None?
      ensures sequence == old(sequence) && packetsSent == old(packetsSent) && bytesSent == old(bytesSent)
      ensures remoteAddr == old(remoteAddr) && connectionStart == old(connectionStart)
    {
      SetState(Disconnected);
    }

    /**
     * `send_audio`: refused unless the state can transmit; otherwise the samples (f32 bit
     * patterns) go little-endian into an audio packet under the next sequence, and a send
     * the socket accepts is counted with the packet's full size.
     */
    method SendAudio(samples: seq<u32>, timestamp: u32, sent: Result<Unit, NetworkError>) returns (r: Result<Unit, NetworkError>)
      modifies this
      ensures !CanTransmit(old(state)) ==>
        (r == Err(NotConnected) && sequence == old(sequence)
         && packetsSent == old(packetsSent) && bytesSent == old(bytesSent))
      ensures CanTransmit(old(state)) ==>
        r == sent && sequence == WrappingAdd(old(sequence), 1)
        && (sent.Ok? ==>
              (packetsSent == old(packetsSent) + 1
               && bytesSent == old(bytesSent) + |ToBytes(AudioPacket(old(sequence), timestamp, U32sLE(samples)))|))
        && (sent.Err? ==> packetsSent == old(packetsSent) && bytesSent == old(bytesSent))
      ensures state == old(state) && lastError == old(lastError)
      ensures remoteAddr == old(remoteAddr) && connectionStart == old(connectionStart)
    {
      if !CanTransmit(state) {
        return Err(NotConnected);
      }
      var payload := U32sLE(samples);
      var number := NextSequence();
      var packet := AudioPacket(number, timestamp, payload);
      var len := |ToBytes(packet)|;
      if sent.Err? {
        return sent;
      }
      packetsSent := packetsSent + 1;
      bytesSent := bytesSent + len;
      assert sent.value == Unit;
      return Ok(Unit);
    }

    /** `send_latency_info`: refused unless the state can transmit; otherwise one sequence is used and the socket's result returned. */
    method SendLatencyInfo(info: InfoMessage, sent: Result<Unit, NetworkError>) returns (r: Result<Unit, NetworkError>)
      modifies this
      ensures !CanTransmit(old(state)) ==> r == Err(NotConnected) && sequence == old(sequence)
      ensures CanTransmit(old(state)) ==> r == sent && sequence == WrappingAdd(old(sequence), 1)
      ensures state == old(state) && lastError == old(lastError)
      ensures packetsSent == old(packetsSent) && bytesSent == old(bytesSent)
      ensures remoteAddr == old(remoteAddr) && connectionStart == old(connectionStart)
    {
      if !CanTransmit(state) {
        return Err(NotConnected);
      }
      var _ := NextSequence();
      return sent;
    }
  }

  /** An audio packet's wire size: the 12-byte header and four bytes per sample. */
  lemma AudioPacketSize(sequence: u32, timestamp: u32, samples: seq<u32>)
    ensures |ToBytes(AudioPacket(sequence, timestamp, U32sLE(samples)))| == HEADER_SIZE + 4 * |samples|
  {
  }
}
