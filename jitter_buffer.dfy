/**
 * The adaptive jitter buffer (src/network/jitter_buffer.rs): packets held by sequence number
 * in an ordered map, a play cursor that walks the sequence space one step per `pop`, a delay
 * that adapts to the loss rate, and pruning of the oldest packets.
 */
module JitterBuffer {
  import opened Bytes
  import opened Ints
  import opened Wrappers
  import Collections

  const FALLBACK_FRAME_DURATION_MS: real := 2.5

  datatype JitterBufferConfig = JitterBufferConfig(
    minDelayFrames: u32, maxDelayFrames: u32, initialDelayFrames: u32, frameDurationMs: real)

  const DEFAULT_CONFIG := JitterBufferConfig(1, 10, 2, 2.5)

  /** What `validated` guarantees of a configuration. */
  predicate ValidConfig(c: JitterBufferConfig)
  {
    1 <= c.minDelayFrames <= c.initialDelayFrames <= c.maxDelayFrames && c.frameDurationMs > 0.0
  }

  /** `JitterBufferConfig::validated`: raise min to 1, max to min, clamp initial, replace a non-positive frame duration. */
  function Validated(c: JitterBufferConfig): (v: JitterBufferConfig)
    ensures ValidConfig(v)
    ensures ValidConfig(c) ==> v == c
    ensures c.minDelayFrames >= 1 ==> v.minDelayFrames == c.minDelayFrames
    ensures c.maxDelayFrames >= v.minDelayFrames ==> v.maxDelayFrames == c.maxDelayFrames
    ensures v.minDelayFrames <= c.initialDelayFrames <= v.maxDelayFrames ==> v.initialDelayFrames == c.initialDelayFrames
    ensures c.frameDurationMs > 0.0 ==> v.frameDurationMs == c.frameDurationMs
  {
    var minDelay := if c.minDelayFrames < 1 then 1 else c.minDelayFrames;
    var maxDelay := if c.maxDelayFrames < minDelay then minDelay else c.maxDelayFrames;
    var initial :=
      if c.initialDelayFrames < minDelay then minDelay
      else if c.initialDelayFrames > maxDelay then maxDelay
      else c.initialDelayFrames;
    var duration := if c.frameDurationMs > 0.0 then c.frameDurationMs else FALLBACK_FRAME_DURATION_MS;
    JitterBufferConfig(minDelay, maxDelay, initial, duration)
  }

  /** Validating twice changes nothing more than validating once. */
  lemma ValidatedIdempotent(c: JitterBufferConfig)
    ensures Validated(Validated(c)) == Validated(c)
  {
  }

  datatype BufferedPacket = BufferedPacket(sequence: u32, timestamp: u32, payload: bytes)

  datatype JitterBufferResult =
    | Packet(sequence: u32, timestamp: u32, payload: bytes)
    | Lost(sequence: u32)
    | Underrun

  /** `max_delay_frames * 2` in u32 arithmetic (wrapping, as a release build computes it). */
  function PruneBound(c: JitterBufferConfig): (r: u32)
    ensures r <= 2 * c.maxDelayFrames
    ensures 2 * c.maxDelayFrames < U32_MOD ==> r == 2 * c.maxDelayFrames
  {
    AsU32(2 * c.maxDelayFrames)
  }

  /** The table after `prune_old_packets`: the smallest keys dropped until at most `bound` remain. */
  ghost function Pruned(packets: map<u32, BufferedPacket>, bound: nat): (r: map<u32, BufferedPacket>)
    ensures r.Keys <= packets.Keys && forall k :: k in r ==> r[k] == packets[k]
    ensures |r| == if |packets| <= bound then |packets| else bound
    ensures forall k, j :: k in packets && k !in r && j in r ==> k < j
    decreases |packets|
  {
    if |packets| <= bound then packets
    else
      var oldest := Collections.Min(packets.Keys);
      Pruned(packets - {oldest}, bound)
  }

  /** The `while self.packets.len() > max_buffer` loop of `prune_old_packets`, removing `first_key_value()`. */
  method PruneTable(packets: map<u32, BufferedPacket>, bound: nat) returns (table: map<u32, BufferedPacket>)
    ensures table == Pruned(packets, bound)
  {
    table := packets;
    while |table| > bound
      invariant Pruned(table, bound) == Pruned(packets, bound)
      decreases |table|
    {
      Collections.MinExists(table.Keys);
      var oldest :| oldest in table && forall y :: y in table ==> oldest <= y;
      ghost var least := Collections.Min(table.Keys);
      assert oldest <= least && least <= oldest;
      table := table - {oldest};
    }
  }

  /** The play cursor before playback: the first sequence seen, then any that is behind it on the circle. */
  function TrackMinimum(current: Option<u32>, sequence: u32): (r: u32)
    ensures current.None? ==> r == sequence
    ensures current.Some? ==> r == (if SequenceDiff(sequence, current.value) < 0 then sequence else current.value)
  {
    match current
    case None => sequence
    case Some(c) => if SequenceDiff(sequence, c) < 0 then sequence else c
  }

  /** The play cursor after a run of arrivals before playback starts. */
  function TrackAll(current: Option<u32>, arrivals: seq<u32>): (r: Option<u32>)
    ensures arrivals != [] ==> r.Some?
    decreases |arrivals|
  {
    if arrivals == [] then current
    else TrackAll(Some(TrackMinimum(current, arrivals[0])), arrivals[1..])
  }

  /** The distance of a sequence number from the start of a window. */
  function Offset(s: u32, base: u32): nat
  {
    WrappingSub(s, base)
  }

  /**
   * Out-of-order arrivals still start playback at the earliest one: when every arrival lies in
   * the half-circle window after `base`, the cursor ends on the arrival closest to `base`.
   */
  lemma {:induction false} TrackAllFindsEarliest(current: Option<u32>, arrivals: seq<u32>, base: u32)
    requires current.Some? ==> Offset(current.value, base) < 0x8000_0000
    requires forall i :: 0 <= i < |arrivals| ==> Offset(arrivals[i], base) < 0x8000_0000
    requires current.Some? || arrivals != []
    ensures TrackAll(current, arrivals).Some?
    ensures var r := TrackAll(current, arrivals).value;
      (r in arrivals || current == Some(r))
      && (current.Some? ==> Offset(r, base) <= Offset(current.value, base))
      && forall i :: 0 <= i < |arrivals| ==> Offset(r, base) <= Offset(arrivals[i], base)
    decreases |arrivals|
  {
    if arrivals != [] {
      var next := TrackMinimum(current, arrivals[0]);
      if current.Some? {
        WindowOrder(arrivals[0], current.value, base);
      }
      assert Offset(next, base) < 0x8000_0000;
      if arrivals[1..] == [] {
        assert TrackAll(current, arrivals) == Some(next);
      } else {
        TrackAllFindsEarliest(Some(next), arrivals[1..], base);
        var r := TrackAll(current, arrivals).value;
        forall i | 0 <= i < |arrivals|
          ensures Offset(r, base) <= Offset(arrivals[i], base)
        {
          if i > 0 {
            assert arrivals[i] == arrivals[1..][i - 1];
          }
        }
        if r !in arrivals[1..] {
          assert r == next;
        }
      }
    }
  }

  /** Loss above 5% of insertions (`loss_rate > 0.05`, taken exactly). */
  predicate HighLoss(lost: nat, inserted: nat)
  {
    inserted > 0 && 100 * lost > 5 * inserted
  }

  /** Loss below 1% of insertions (`loss_rate < 0.01`, taken exactly; no insertions is rate 0). */
  predicate LowLoss(lost: nat, inserted: nat)
  {
    inserted == 0 || 100 * lost < inserted
  }

  /** `JitterBuffer`. */
  class JitterBuffer {
    var packets: map<u32, BufferedPacket>
    var nextPlaySequence: Option<u32>
    var config: JitterBufferConfig
    var currentDelayFrames: u32
    var packetsInserted: nat
    var packetsPlayed: nat
    var packetsLost: nat
    var lateArrivals: nat
    var playing: bool
    var firstTimestamp: Option<u32>

    /**
     * What every operation keeps: a validated configuration, the delay inside its bounds, each
     * packet filed under its own sequence, a cursor whenever playing, and at most the prune bound held.
     */
    predicate Valid()
      reads this
    {
      ValidConfig(config)
      && config.minDelayFrames <= currentDelayFrames <= config.maxDelayFrames
      && (forall k :: k in packets ==> packets[k].sequence == k)
      && (playing ==> nextPlaySequence.Some?)
      && |packets| <= PruneBound(config)
    }

    /** `depth`: `packets.len() as u32`. */
    function Depth(): (d: u32)
      reads this
      ensures |packets| < U32_MOD ==> d == |packets|
    {
      AsU32(|packets|)
    }

    /** `JitterBuffer::with_config`. */
    constructor(c: JitterBufferConfig)
      ensures Valid()
      ensures config == Validated(c) && currentDelayFrames == config.initialDelayFrames
      ensures packets == map[] && nextPlaySequence.None? && !playing && firstTimestamp.None?
      ensures packetsInserted == 0 && packetsPlayed == 0 && packetsLost == 0 && lateArrivals == 0
    {
      config := Validated(c);
      packets := map[];
      nextPlaySequence := None;
      currentDelayFrames := Validated(c).initialDelayFrames;
      packetsInserted := 0;
      packetsPlayed := 0;
      packetsLost := 0;
      lateArrivals := 0;
      playing := false;
      firstTimestamp := None;
    }

    /** `insert`: track the earliest sequence before playback, count late arrivals during it, store, prune. */
    method Insert(sequence: u32, timestamp: u32, payload: bytes)
      requires Valid()
      modifies this
      ensures Valid()
      ensures firstTimestamp == (if old(firstTimestamp).None? then Some(timestamp) else old(firstTimestamp))
      ensures !old(playing) ==> nextPlaySequence == Some(TrackMinimum(old(nextPlaySequence), sequence))
      ensures old(playing) ==> nextPlaySequence == old(nextPlaySequence)
      ensures lateArrivals == old(lateArrivals)
        + (if old(playing) && SequenceDiff(sequence, old(nextPlaySequence).value) < 0 then 1 else 0)
      ensures packets == Pruned(old(packets)[sequence := BufferedPacket(sequence, timestamp, payload)], PruneBound(config))
      ensures packetsInserted == old(packetsInserted) + 1
      ensures config == old(config) && currentDelayFrames == old(currentDelayFrames) && playing == old(playing)
      ensures packetsPlayed == old(packetsPlayed) && packetsLost == old(packetsLost)
    {
      if firstTimestamp.None? {
        firstTimestamp := Some(timestamp);
      }
      if !playing {
        nextPlaySequence := Some(TrackMinimum(nextPlaySequence, sequence));
      } else if SequenceDiff(sequence, nextPlaySequence.value) < 0 {
        lateArrivals := lateArrivals + 1;
      }
      Store(sequence, timestamp, payload);
    }

    /** The `packets.insert`, the insertion count and the pruning that end `insert`. */
    method Store(sequence: u32, timestamp: u32, payload: bytes)
      requires Valid()
      modifies this
      ensures Valid()
      ensures packets == Pruned(old(packets)[sequence := BufferedPacket(sequence, timestamp, payload)], PruneBound(config))
      ensures packetsInserted == old(packetsInserted) + 1
      ensures config == old(config) && currentDelayFrames == old(currentDelayFrames) && playing == old(playing)
      ensures nextPlaySequence == old(nextPlaySequence) && firstTimestamp == old(firstTimestamp)
      ensures packetsPlayed == old(packetsPlayed) && packetsLost == old(packetsLost) && lateArrivals == old(lateArrivals)
    {
      packets := packets[sequence := BufferedPacket(sequence, timestamp, payload)];
      assert forall k :: k in packets ==> packets[k].sequence == k;
      packetsInserted := packetsInserted + 1;
      ghost var stored := packets;
      PruneOldPackets();
      assert packets.Keys <= stored.Keys && forall k :: k in packets ==> packets[k] == stored[k];
    }

    /** `prune_old_packets`: while more than the bound are held, drop the smallest key. */
    method PruneOldPackets()
      modifies this
      ensures packets == Pruned(old(packets), PruneBound(config))
      ensures config == old(config) && nextPlaySequence == old(nextPlaySequence) && playing == old(playing)
      ensures currentDelayFrames == old(currentDelayFrames) && firstTimestamp == old(firstTimestamp)
      ensures packetsInserted == old(packetsInserted) && packetsPlayed == old(packetsPlayed)
      ensures packetsLost == old(packetsLost) && lateArrivals == old(lateArrivals)
    {
      packets := PruneTable(packets, PruneBound(config));
    }

    /**
     * `pop`: Underrun without a cursor, or before playback while fewer than the delay are held;
     * otherwise start playing, hand out the packet at the cursor or report it lost, and step on.
     */
    method Pop() returns (r: JitterBufferResult)
      requires Valid()
      modifies this
      ensures Valid()
      ensures old(nextPlaySequence).None? || (!old(playing) && old(Depth()) < currentDelayFrames) ==>
        r == Underrun && packets == old(packets) && nextPlaySequence == old(nextPlaySequence)
        && playing == old(playing) && packetsPlayed == old(packetsPlayed) && packetsLost == old(packetsLost)
      ensures old(playing) ==> !r.Underrun?
      ensures r.Underrun? <==> old(nextPlaySequence).None? || (!old(playing) && old(Depth()) < currentDelayFrames)
      ensures !r.Underrun? ==>
        var n := old(nextPlaySequence).value;
        playing && nextPlaySequence == Some(WrappingAdd(n, 1))
        && (n in old(packets) ==>
              r == Packet(n, old(packets)[n].timestamp, old(packets)[n].payload)
              && packets == old(packets) - {n} && packetsPlayed == old(packetsPlayed) + 1 && packetsLost == old(packetsLost))
        && (n !in old(packets) ==>
              r == Lost(n) && packets == old(packets) && packetsLost == old(packetsLost) + 1 && packetsPlayed == old(packetsPlayed))
      ensures config == old(config) && currentDelayFrames == old(currentDelayFrames) && firstTimestamp == old(firstTimestamp)
      ensures packetsInserted == old(packetsInserted) && lateArrivals == old(lateArrivals)
    {
      if nextPlaySequence.None? {
        return Underrun;
      }
      var n := nextPlaySequence.value;
      if !playing {
        if Depth() < currentDelayFrames {
          return Underrun;
        }
        playing := true;
      }
      if n in packets {
        var packet := packets[n];
        packets := packets - {n};
        nextPlaySequence := Some(WrappingAdd(n, 1));
        packetsPlayed := packetsPlayed + 1;
        r := Packet(packet.sequence, packet.timestamp, packet.payload);
      } else {
        nextPlaySequence := Some(WrappingAdd(n, 1));
        packetsLost := packetsLost + 1;
        r := Lost(n);
      }
    }

    /** `adapt`: one frame more above 5% loss, one fewer below 1% loss when more than the delay is buffered. */
    method Adapt()
      requires Valid()
      modifies this
      ensures Valid()
      ensures HighLoss(packetsLost, packetsInserted) ==>
        currentDelayFrames == (if old(currentDelayFrames) < config.maxDelayFrames then old(currentDelayFrames) + 1 else old(currentDelayFrames))
      ensures !HighLoss(packetsLost, packetsInserted) && LowLoss(packetsLost, packetsInserted) && Depth() > old(currentDelayFrames) ==>
        currentDelayFrames == (if old(currentDelayFrames) > config.minDelayFrames then old(currentDelayFrames) - 1 else old(currentDelayFrames))
      ensures !HighLoss(packetsLost, packetsInserted) && !(LowLoss(packetsLost, packetsInserted) && Depth() > old(currentDelayFrames)) ==>
        currentDelayFrames == old(currentDelayFrames)
      ensures packets == old(packets) && config == old(config) && nextPlaySequence == old(nextPlaySequence)
      ensures playing == old(playing) && firstTimestamp == old(firstTimestamp)
      ensures packetsInserted == old(packetsInserted) && packetsPlayed == old(packetsPlayed)
      ensures packetsLost == old(packetsLost) && lateArrivals == old(lateArrivals)
    {
      if HighLoss(packetsLost, packetsInserted) {
        if currentDelayFrames < config.maxDelayFrames {
          currentDelayFrames := currentDelayFrames + 1;
        }
      } else if LowLoss(packetsLost, packetsInserted) && Depth() > currentDelayFrames {
        if currentDelayFrames > config.minDelayFrames {
          currentDelayFrames := currentDelayFrames - 1;
        }
      }
    }

    /** `reset`: empty the buffer, drop the cursor and the playing flag, zero the counters, restore the initial delay. */
    method Reset()
      requires Valid()
      modifies this
      ensures Valid()
      ensures config == old(config) && currentDelayFrames == config.initialDelayFrames
      ensures packets == map[] && nextPlaySequence.None? && !playing && firstTimestamp.None?
      ensures packetsInserted == 0 && packetsPlayed == 0 && packetsLost == 0 && lateArrivals == 0
    {
      packets := map[];
      nextPlaySequence := None;
      currentDelayFrames := config.initialDelayFrames;
      packetsInserted := 0;
      packetsPlayed := 0;
      packetsLost := 0;
      lateArrivals := 0;
      playing := false;
      firstTimestamp := None;
    }
  }
}
