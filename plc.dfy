/**
 * Packet-loss concealment for PCM (src/audio/plc.rs): repeat the last good frame with a gain
 * that shrinks geometrically with each consecutive loss, and give silence once the losses run
 * past a limit. Samples and gains are f32 values, modelled as reals.
 */
module Plc {
  import opened Bytes
  import opened Ints

  /** `PcmPlc::new`'s defaults. */
  const DEFAULT_MAX_LOSSES: u32 := 5
  const DEFAULT_FADEOUT: real := 0.85

  /** `x` to the power `n` (`f32::powi`). */
  function Pow(x: real, n: nat): real
  {
    if n == 0 then 1.0 else x * Pow(x, n - 1)
  }

  /** `f32::clamp(0.0, 1.0)`. */
  function Clamp01(x: real): (r: real)
    ensures 0.0 <= r <= 1.0
    ensures 0.0 <= x <= 1.0 ==> r == x
  {
    if x < 0.0 then 0.0 else if x > 1.0 then 1.0 else x
  }

  /** `n` zero samples. */
  function Silence(n: nat): (r: seq<real>)
    ensures |r| == n && forall i :: 0 <= i < n ==> r[i] == 0.0
  {
    seq(n, _ => 0.0)
  }

  /** Every sample of the frame times the gain. */
  function Attenuate(frame: seq<real>, gain: real): (r: seq<real>)
    ensures |r| == |frame| && forall i :: 0 <= i < |r| ==> r[i] == frame[i] * gain
  {
    seq(|frame|, i requires 0 <= i < |frame| => frame[i] * gain)
  }

  /** A factor in [0, 1] raised to a higher power never grows, and stays in [0, 1]. */
  lemma {:induction false} PowFades(f: real, n: nat)
    requires 0.0 <= f <= 1.0
    ensures 0.0 <= Pow(f, n + 1) <= Pow(f, n) <= 1.0
  {
    if n > 0 {
      PowFades(f, n - 1);
    }
    var p := Pow(f, n);
    assert 0.0 <= p <= 1.0;
    assert Pow(f, n + 1) == f * p;
    assert f * p <= p by {
      assert (1.0 - f) * p >= 0.0;
    }
  }

  function Abs(x: real): real
  {
    if x < 0.0 then -x else x
  }

  /** Attenuating by a gain in [0, 1] never makes a sample louder. */
  lemma AttenuateQuieter(frame: seq<real>, gain: real, other: real)
    requires 0.0 <= gain <= other
    ensures forall i :: 0 <= i < |frame| ==> Abs(Attenuate(frame, gain)[i]) <= Abs(Attenuate(frame, other)[i])
  {
    forall i | 0 <= i < |frame|
      ensures Abs(Attenuate(frame, gain)[i]) <= Abs(Attenuate(frame, other)[i])
    {
      var x := frame[i];
      if x < 0.0 {
        assert x * gain >= x * other;
      } else {
        assert x * gain <= x * other;
      }
    }
  }

  /** The gains the default factor gives on the first three losses. */
  lemma DefaultGains()
    ensures Pow(DEFAULT_FADEOUT, 1) == 0.85
    ensures Pow(DEFAULT_FADEOUT, 2) == 0.7225
    ensures Pow(DEFAULT_FADEOUT, 3) == 0.614125
  {
    assert Pow(DEFAULT_FADEOUT, 1) == 0.85 * Pow(DEFAULT_FADEOUT, 0);
    assert Pow(DEFAULT_FADEOUT, 2) == 0.85 * Pow(DEFAULT_FADEOUT, 1);
    assert Pow(DEFAULT_FADEOUT, 3) == 0.85 * Pow(DEFAULT_FADEOUT, 2);
  }

  /** What one concealment produces after `losses` consecutive losses (counting this one). */
  function Concealment(lastFrame: seq<real>, losses: u32, maxLosses: u32, fadeout: real, frameLen: nat): (r: seq<real>)
    ensures losses > maxLosses ==> r == Silence(frameLen)
    ensures losses <= maxLosses ==> r == Attenuate(lastFrame, Pow(fadeout, losses))
  {
    if losses > maxLosses then Silence(frameLen) else Attenuate(lastFrame, Pow(fadeout, losses))
  }

  /** With a factor in [0, 1], a concealment is never louder than the frame it repeats. */
  lemma ConcealmentNeverLouder(lastFrame: seq<real>, losses: u32, maxLosses: u32, fadeout: real, frameLen: nat)
    requires 0.0 <= fadeout <= 1.0
    ensures var r := Concealment(lastFrame, losses, maxLosses, fadeout, frameLen);
      forall i :: 0 <= i < |r| && i < |lastFrame| ==> Abs(r[i]) <= Abs(lastFrame[i])
  {
    if losses <= maxLosses {
      if losses == 0 {
        assert Pow(fadeout, 0) == 1.0;
      } else {
        PowFades(fadeout, losses - 1);
      }
      AttenuateQuieter(lastFrame, Pow(fadeout, losses), 1.0);
      assert forall i :: 0 <= i < |lastFrame| ==> Attenuate(lastFrame, 1.0)[i] == lastFrame[i];
    }
  }

  /**
   * While losses stay within the limit, each further concealment of the same frame is at most
   * as loud as the one before.
   */
  lemma ConcealmentFades(lastFrame: seq<real>, losses: u32, maxLosses: u32, fadeout: real, frameLen: nat)
    requires 0.0 <= fadeout <= 1.0
    requires 1 <= losses < maxLosses
    ensures var before := Concealment(lastFrame, losses, maxLosses, fadeout, frameLen);
      var after := Concealment(lastFrame, losses + 1, maxLosses, fadeout, frameLen);
      |after| == |before| && forall i :: 0 <= i < |after| ==> Abs(after[i]) <= Abs(before[i])
  {
    PowFades(fadeout, losses);
    AttenuateQuieter(lastFrame, Pow(fadeout, losses + 1), Pow(fadeout, losses));
  }

  /** `PcmPlc`. */
  class PcmPlc {
    var lastFrame: seq<real>
    var consecutiveLosses: u32
    const frameSize: u32
    const channels: u16
    const maxLossesBeforeSilence: u32
    const fadeoutFactor: real

    /** The fade factor is a gain in [0, 1]. */
    predicate Valid()
      reads this
    {
      0.0 <= fadeoutFactor <= 1.0
    }

    /** `frame_size · channels`: the length of a silent frame. */
    function FrameLen(): nat
    {
      frameSize * channels
    }

    /** `PcmPlc::new`: a silent last frame, no losses, the default limit of 5 and factor 0.85. */
    constructor New(frameSize: u32, channels: u16)
      ensures Valid()
      ensures this.frameSize == frameSize && this.channels == channels
      ensures maxLossesBeforeSilence == DEFAULT_MAX_LOSSES && fadeoutFactor == DEFAULT_FADEOUT
      ensures lastFrame == Silence(frameSize * channels) && consecutiveLosses == 0
    {
      this.frameSize := frameSize;
      this.channels := channels;
      maxLossesBeforeSilence := DEFAULT_MAX_LOSSES;
      fadeoutFactor := DEFAULT_FADEOUT;
      lastFrame := Silence(frameSize * channels);
      consecutiveLosses := 0;
    }

    /** `PcmPlc::with_config`: as `new`, with the given limit and the factor clamped into [0, 1]. */
    constructor WithConfig(frameSize: u32, channels: u16, maxLosses: u32, fadeout: real)
      ensures Valid()
      ensures this.frameSize == frameSize && this.channels == channels
      ensures maxLossesBeforeSilence == maxLosses && fadeoutFactor == Clamp01(fadeout)
      ensures lastFrame == Silence(frameSize * channels) && consecutiveLosses == 0
    {
      this.frameSize := frameSize;
      this.channels := channels;
      maxLossesBeforeSilence := maxLosses;
      fadeoutFactor := Clamp01(fadeout);
      lastFrame := Silence(frameSize * channels);
      consecutiveLosses := 0;
    }

    /** `store_frame`: the frame becomes the last good one and the loss run ends. */
    method StoreFrame(samples: seq<real>)
      requires Valid()
      modifies this
      ensures Valid()
      ensures lastFrame == samples && consecutiveLosses == 0
      ensures !IsConcealing()
    {
      lastFrame := samples;
      consecutiveLosses := 0;
    }

    /**
     * `generate_concealment`: one more loss (the u32 counter wraps); past the limit a silent
     * frame, otherwise the last frame times the factor to the power of the losses so far.
     */
    method GenerateConcealment() returns (out: seq<real>)
      requires Valid()
      modifies this
      ensures Valid()
      ensures consecutiveLosses == WrappingAdd(old(consecutiveLosses), 1)
      ensures lastFrame == old(lastFrame)
      ensures out == Concealment(lastFrame, consecutiveLosses, maxLossesBeforeSilence, fadeoutFactor, FrameLen())
      ensures forall i :: 0 <= i < |out| && i < |lastFrame| ==> Abs(out[i]) <= Abs(lastFrame[i])
      ensures IsConcealing() <==> old(consecutiveLosses) != 0xFFFF_FFFF
    {
      ConcealmentNeverLouder(lastFrame, WrappingAdd(consecutiveLosses, 1), maxLossesBeforeSilence, fadeoutFactor, FrameLen());
      consecutiveLosses := WrappingAdd(consecutiveLosses, 1);
      if consecutiveLosses > maxLossesBeforeSilence {
        return Silence(frameSize * channels);
      }
      var gain := Pow(fadeoutFactor, consecutiveLosses);
      out := Attenuate(lastFrame, gain);
    }

    /** `reset`: a silent last frame and no losses. */
    method Reset()
      requires Valid()
      modifies this
      ensures Valid()
      ensures lastFrame == Silence(FrameLen()) && consecutiveLosses == 0
      ensures !IsConcealing()
    {
      lastFrame := Silence(frameSize * channels);
      consecutiveLosses := 0;
    }

    /** `consecutive_losses`. */
    function ConsecutiveLosses(): (r: u32)
      reads this
      ensures r == consecutiveLosses
    {
      consecutiveLosses
    }

    /** `is_concealing`: at least one loss since the last good frame. */
    predicate IsConcealing()
      reads this
      ensures IsConcealing() <==> ConsecutiveLosses() != 0
    {
      consecutiveLosses > 0
    }
  }

  /**
   * A frame stored and then lost `maxLosses + 1` times in a row: the first loss repeats it at
   * the factor's gain, and the one after the limit is silence.
   */
  lemma FirstAndPastLimit(frame: seq<real>, maxLosses: u32, fadeout: real, frameLen: nat)
    requires maxLosses < 0xFFFF_FFFF
    ensures maxLosses >= 1 ==> Concealment(frame, 1, maxLosses, fadeout, frameLen) == Attenuate(frame, fadeout)
    ensures Concealment(frame, maxLosses + 1, maxLosses, fadeout, frameLen) == Silence(frameLen)
  {
    assert Pow(fadeout, 1) == fadeout * Pow(fadeout, 0);
  }
}
