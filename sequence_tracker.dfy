/**
 * The loss tracker (src/network/sequence_tracker.rs): the highest sequence seen, a 64-bit
 * window of which of the 64 sequences ending there arrived, and received/lost counters, all
 * under u32 wrap-around.
 */
module SequenceTracker {
  import opened Bytes
  import opened Ints
  import opened Wrappers

  /** `window_size`: set to 64 by `new` and never changed. */
  const WINDOW_SIZE: nat := 64

  /**
   * The tracker's fields. The u64 `received_bitmap` is held as the set of its set bit
   * positions: bit n stands for `highest_sequence - n`.
   */
  datatype TrackerState = TrackerState(
    lastSequence: Option<u32>,
    highestSequence: u32,
    receivedBitmap: set<nat>,
    packetsReceived: nat,
    packetsLost: nat)

  /** `SequenceTracker::new` and `reset`. */
  const INITIAL := TrackerState(None, 0, {}, 0, 0)

  /** Every bit position lies inside the 64-bit word. */
  predicate ValidBitmap(bits: set<nat>)
  {
    forall n :: n in bits ==> n < 64
  }

  /** `bitmap <<= diff` (or 0 when diff ≥ 64) followed by `|= 1`. */
  function ShiftIn(bits: set<nat>, d: nat): (r: set<nat>)
    requires ValidBitmap(bits) && 1 <= d
    ensures ValidBitmap(r)
    ensures forall n :: n in r <==> n == 0 || (d <= n < 64 && n - d in bits)
  {
    if d < 64 then (set n | n in bits && n + d < 64 :: n + d) + {0}
    else {0}
  }

  /** The sequences strictly between `h` and `h + n + 1`, in order: the ones a forward jump skips. */
  function Gap(h: u32, n: nat): (r: seq<u32>)
    requires n < WINDOW_SIZE
    ensures |r| == n && forall k :: 0 <= k < n ==> r[k] == WrappingAdd(h, k + 1)
  {
    seq(n, k requires 0 <= k < n => WrappingAdd(h, k + 1))
  }

  /** `record`: the new fields and the reported lost sequences. */
  function RecordStep(s: TrackerState, sequence: u32): (r: (TrackerState, seq<u32>))
    requires ValidBitmap(s.receivedBitmap)
    ensures |r.1| < WINDOW_SIZE
    ensures r.0.highestSequence == s.highestSequence || r.0.highestSequence == sequence
    ensures r.1 != [] ==> r.0.highestSequence == sequence && r.0.packetsLost == s.packetsLost + |r.1|
    ensures r.1 == [] ==> r.0.packetsLost <= s.packetsLost
    ensures forall k :: 0 <= k < |r.1| ==> r.1[k] != sequence
  {
    var received := s.packetsReceived + 1;
    if s.lastSequence.None? then
      (TrackerState(Some(sequence), sequence, {0}, received, s.packetsLost), [])
    else
      var diff := SequenceDiff(sequence, s.highestSequence);
      if diff > 0 then
        if diff <= WINDOW_SIZE then
          (TrackerState(Some(sequence), sequence, ShiftIn(s.receivedBitmap, diff), received, s.packetsLost + (diff - 1)),
           Gap(s.highestSequence, diff - 1))
        else
          (TrackerState(Some(sequence), sequence, {0}, received, s.packetsLost), [])
      else if diff < 0 && diff > -(WINDOW_SIZE as int) then
        var offset := -diff;
        if offset !in s.receivedBitmap then
          var lost := if s.packetsLost > 0 then s.packetsLost - 1 else 0;
          (TrackerState(Some(sequence), s.highestSequence, s.receivedBitmap + {offset}, received, lost), [])
        else
          (s.(lastSequence := Some(sequence), packetsReceived := received), [])
      else
        (s.(lastSequence := Some(sequence), packetsReceived := received), [])
  }

  /** `was_received`: within the 64 sequences ending at the highest, and its bit set. */
  predicate WasReceivedIn(s: TrackerState, sequence: u32)
  {
    var diff := SequenceDiff(s.highestSequence, sequence);
    0 <= diff < 64 && diff in s.receivedBitmap
  }

  /** The bitmap stays inside 64 bits and every record counts one received packet. */
  lemma RecordKeepsValid(s: TrackerState, sequence: u32)
    requires ValidBitmap(s.receivedBitmap)
    ensures ValidBitmap(RecordStep(s, sequence).0.receivedBitmap)
    ensures RecordStep(s, sequence).0.packetsReceived == s.packetsReceived + 1
    ensures RecordStep(s, sequence).0.lastSequence == Some(sequence)
  {
  }

  /** The first record reports nothing and makes the sequence the highest, with only bit 0 set. */
  lemma RecordFirst(s: TrackerState, sequence: u32)
    requires ValidBitmap(s.receivedBitmap) && s.lastSequence.None?
    ensures var (t, lost) := RecordStep(s, sequence);
      lost == [] && t.highestSequence == sequence && t.receivedBitmap == {0}
      && t.packetsLost == s.packetsLost && WasReceivedIn(t, sequence)
  {
  }

  /**
   * A jump of d in 1..=64 ahead reports exactly the d - 1 skipped sequences in order, counts
   * them lost, makes the new sequence the highest and received, and no skipped one received.
   */
  lemma RecordAhead(s: TrackerState, sequence: u32)
    requires ValidBitmap(s.receivedBitmap) && s.lastSequence.Some?
    requires 0 < SequenceDiff(sequence, s.highestSequence) <= WINDOW_SIZE as int
    ensures var d := SequenceDiff(sequence, s.highestSequence);
      var (t, lost) := RecordStep(s, sequence);
      lost == Gap(s.highestSequence, d - 1)
      && t.packetsLost == s.packetsLost + (d - 1)
      && t.highestSequence == sequence && WasReceivedIn(t, sequence)
      && forall k :: 0 <= k < |lost| ==> !WasReceivedIn(t, lost[k])
  {
    var d := SequenceDiff(sequence, s.highestSequence);
    var (t, lost) := RecordStep(s, sequence);
    SequenceDiffZero(sequence, sequence);
    forall k | 0 <= k < |lost|
      ensures !WasReceivedIn(t, lost[k])
    {
      SequenceDiffAhead(s.highestSequence, k + 1);
      SequenceDiffAdd(sequence, lost[k], s.highestSequence);
    }
  }

  /** A sequence received before the jump and still inside the shifted window stays received. */
  lemma RecordAheadKeeps(s: TrackerState, sequence: u32, earlier: u32)
    requires ValidBitmap(s.receivedBitmap) && s.lastSequence.Some?
    requires 0 < SequenceDiff(sequence, s.highestSequence) <= WINDOW_SIZE as int
    requires WasReceivedIn(s, earlier)
    requires SequenceDiff(sequence, s.highestSequence) + SequenceDiff(s.highestSequence, earlier) < 64
    ensures WasReceivedIn(RecordStep(s, sequence).0, earlier)
  {
    SequenceDiffAdd(sequence, s.highestSequence, earlier);
  }

  /** A jump of more than 64 ahead reports nothing and restarts the window at the new sequence. */
  lemma RecordJump(s: TrackerState, sequence: u32)
    requires ValidBitmap(s.receivedBitmap) && s.lastSequence.Some?
    requires SequenceDiff(sequence, s.highestSequence) > WINDOW_SIZE as int
    ensures var (t, lost) := RecordStep(s, sequence);
      lost == [] && t.receivedBitmap == {0} && t.highestSequence == sequence && t.packetsLost == s.packetsLost
  {
  }

  /**
   * A late packet up to 63 behind whose bit is clear becomes received and takes one loss back,
   * never below zero; a duplicate changes nothing but the received count.
   */
  lemma RecordLate(s: TrackerState, sequence: u32)
    requires ValidBitmap(s.receivedBitmap) && s.lastSequence.Some?
    requires -(WINDOW_SIZE as int) < SequenceDiff(sequence, s.highestSequence) < 0
    ensures var (t, lost) := RecordStep(s, sequence);
      lost == [] && t.highestSequence == s.highestSequence && WasReceivedIn(t, sequence)
      && (WasReceivedIn(s, sequence) ==> t.receivedBitmap == s.receivedBitmap && t.packetsLost == s.packetsLost)
      && (!WasReceivedIn(s, sequence) ==> t.packetsLost == if s.packetsLost > 0 then s.packetsLost - 1 else 0)
  {
    SequenceDiffAntisymmetric(sequence, s.highestSequence);
  }

  /** The highest sequence again, or one 64 or more behind, only counts as received. */
  lemma RecordStale(s: TrackerState, sequence: u32)
    requires ValidBitmap(s.receivedBitmap) && s.lastSequence.Some?
    requires SequenceDiff(sequence, s.highestSequence) == 0 || SequenceDiff(sequence, s.highestSequence) <= -(WINDOW_SIZE as int)
    ensures var (t, lost) := RecordStep(s, sequence);
      lost == [] && t == s.(lastSequence := Some(sequence), packetsReceived := s.packetsReceived + 1)
  {
  }

  /** `u32::MAX` then `0` is a step of one: nothing is lost across the wrap. */
  lemma RecordAcrossWrap(s: TrackerState)
    requires ValidBitmap(s.receivedBitmap) && s.lastSequence.Some? && s.highestSequence == 0xFFFF_FFFF
    ensures var (t, lost) := RecordStep(s, 0);
      lost == [] && t.packetsLost == s.packetsLost && t.highestSequence == 0
  {
    SequenceDiffAcrossWrap();
  }

  /** `SequenceTracker`. */
  class SequenceTracker {
    var lastSequence: Option<u32>
    var highestSequence: u32
    var receivedBitmap: set<nat>
    var packetsReceived: nat
    var packetsLost: nat

    function State(): TrackerState
      reads this
    {
      TrackerState(lastSequence, highestSequence, receivedBitmap, packetsReceived, packetsLost)
    }

    predicate Valid()
      reads this
    {
      ValidBitmap(receivedBitmap)
    }

    /** `SequenceTracker::new`. */
    constructor()
      ensures Valid() && State() == INITIAL
    {
      lastSequence := None;
      highestSequence := 0;
      receivedBitmap := {};
      packetsReceived := 0;
      packetsLost := 0;
    }

    /** `record`: update the window and the counters and report the sequences a forward jump skipped. */
    method Record(sequence: u32) returns (lost: seq<u32>)
      requires Valid()
      modifies this
      ensures Valid()
      ensures (State(), lost) == RecordStep(old(State()), sequence)
    {
      packetsReceived := packetsReceived + 1;
      if lastSequence.None? {
        lastSequence := Some(sequence);
        highestSequence := sequence;
        receivedBitmap := {0};
        return [];
      }
      lost := [];
      var diff := SequenceDiff(sequence, highestSequence);
      if diff > 0 {
        if diff <= WINDOW_SIZE {
          lost := SkippedSequences(highestSequence, diff);
          packetsLost := packetsLost + (diff - 1);
          receivedBitmap := ShiftIn(receivedBitmap, diff);
        } else {
          receivedBitmap := {0};
        }
        highestSequence := sequence;
      } else if diff < 0 && diff > -(WINDOW_SIZE as int) {
        var offset := -diff;
        if offset !in receivedBitmap {
          receivedBitmap := receivedBitmap + {offset};
          if packetsLost > 0 {
            packetsLost := packetsLost - 1;
          }
        }
      }
      lastSequence := Some(sequence);
    }

    /** `was_received`. */
    function WasReceived(sequence: u32): (r: bool)
      reads this
      ensures r == WasReceivedIn(State(), sequence)
    {
      var diff := SequenceDiff(highestSequence, sequence);
      if diff < 0 || diff >= 64 then false else diff in receivedBitmap
    }

    /** `reset`. */
    method Reset()
      modifies this
      ensures Valid() && State() == INITIAL
    {
      lastSequence := None;
      highestSequence := 0;
      receivedBitmap := {};
      packetsReceived := 0;
      packetsLost := 0;
    }
  }

  /** The `for i in 1..diff` loop of `record`: push `highest + i` for each skipped i. */
  method SkippedSequences(highest: u32, diff: nat) returns (lost: seq<u32>)
    requires 1 <= diff <= WINDOW_SIZE
    ensures lost == Gap(highest, diff - 1)
  {
    lost := [];
    var i := 1;
    while i < diff
      invariant 1 <= i <= diff
      invariant lost == Gap(highest, i - 1)
    {
      lost := lost + [WrappingAdd(highest, i)];
      i := i + 1;
    }
  }
}
