/**
 * Audio effects (src/audio/effects.rs): gain, one-pole low- and high-pass filters, a
 * compressor, a delay line over a ring buffer and a noise gate, each processing a buffer of
 * samples in place, and the chain that runs them in insertion order. Samples and parameters
 * are f32 values, modelled as reals; `exp`, `powf` and `log10` are parameters. An effect is
 * owned by the chain (a boxed trait object), so each one is a value: processing returns the
 * effect's new state and rewrites the sample array.
 */
module Effects {
  import opened Wrappers
  import Ints

  /** The transcendental functions the effects call, and f32's division by zero. */
  datatype MathFns = MathFns(exp: real -> real, pow10: real -> real, log10: real -> real, overZero: real -> real)

  /** `10^x` is positive, so a threshold in dB is a positive amplitude. */
  type Math = m: MathFns | forall x :: m.pow10(x) > 0.0
    witness MathFns(x => 1.0, x => 1.0, x => 0.0, x => 0.0)

  const PI: real := 3.14159265358979323846

  /** `db_to_linear`: `10^(db / 20)`. */
  function DbToLinear(m: Math, db: real): (r: real)
    ensures r > 0.0
  {
    m.pow10(db / 20.0)
  }

  function Max(a: real, b: real): real
  {
    if a >= b then a else b
  }

  /** `linear_to_db`: `20 · log10(max(x, 1e-10))`. */
  function LinearToDb(m: Math, linear: real): real
  {
    20.0 * m.log10(Max(linear, 0.0000000001))
  }

  function Abs(x: real): real
  {
    if x < 0.0 then -x else x
  }

  function Clamp(x: real, lo: real, hi: real): (r: real)
    requires lo <= hi
    ensures lo <= r <= hi
    ensures lo <= x <= hi ==> r == x
  {
    if x < lo then lo else if x > hi then hi else x
  }

  /** Every effect, its parameters and the state it carries from one buffer to the next. */
  datatype Effect =
    | Gain(enabled: bool, gain: real)
    | LowPass(enabled: bool, cutoff: real, sampleRate: real, prevSample: real, alpha: real)
    | HighPass(enabled: bool, cutoff: real, sampleRate: real, prevInput: real, prevOutput: real, alpha: real)
    | Compressor(enabled: bool, thresholdDb: real, ratio: real, attackMs: real, releaseMs: real,
                 makeupDb: real, sampleRate: real, envelope: real)
    | Delay(enabled: bool, delayMs: real, feedback: real, mix: real,
            buffer: seq<real>, writePos: nat, sampleRate: real)
    | NoiseGate(enabled: bool, thresholdDb: real, attackMs: real, releaseMs: real,
                sampleRate: real, gateOpen: real)

  // ----- construction and parameters -----

  /** `Gain::new`: enabled, the gain given in dB. */
  function NewGain(m: Math, gainDb: real): (e: Effect)
    ensures e.Gain? && e.enabled && e.gain == DbToLinear(m, gainDb)
  {
    Gain(true, DbToLinear(m, gainDb))
  }

  /** `Gain::set_gain_db`. */
  function SetGainDb(m: Math, e: Effect, db: real): (r: Effect)
    requires e.Gain?
    ensures r == e.(gain := DbToLinear(m, db))
  {
    e.(gain := DbToLinear(m, db))
  }

  /** The low-pass smoothing factor `dt / (rc + dt)` for `rc = 1/(2π·cutoff)`, `dt = 1/rate`. */
  function LowPassAlpha(cutoff: real, sampleRate: real): (alpha: real)
    requires cutoff > 0.0 && sampleRate > 0.0
    ensures 0.0 < alpha < 1.0
  {
    var rc := 1.0 / (2.0 * PI * cutoff);
    var dt := 1.0 / sampleRate;
    dt / (rc + dt)
  }

  /** The high-pass factor `rc / (rc + dt)`. */
  function HighPassAlpha(cutoff: real, sampleRate: real): (alpha: real)
    requires cutoff > 0.0 && sampleRate > 0.0
    ensures 0.0 < alpha < 1.0
  {
    var rc := 1.0 / (2.0 * PI * cutoff);
    var dt := 1.0 / sampleRate;
    rc / (rc + dt)
  }

  /** The two factors share a denominator and add up to one. */
  lemma AlphasComplement(cutoff: real, sampleRate: real)
    requires cutoff > 0.0 && sampleRate > 0.0
    ensures LowPassAlpha(cutoff, sampleRate) + HighPassAlpha(cutoff, sampleRate) == 1.0
  {
    var rc := 1.0 / (2.0 * PI * cutoff);
    var dt := 1.0 / sampleRate;
    assert dt / (rc + dt) + rc / (rc + dt) == (dt + rc) / (rc + dt);
  }

  /** `LowPassFilter::new`: enabled, no history. */
  function NewLowPass(cutoff: real, sampleRate: real): (e: Effect)
    requires cutoff > 0.0 && sampleRate > 0.0
    ensures e == LowPass(true, cutoff, sampleRate, 0.0, LowPassAlpha(cutoff, sampleRate))
  {
    LowPass(true, cutoff, sampleRate, 0.0, LowPassAlpha(cutoff, sampleRate))
  }

  /** `HighPassFilter::new`: enabled, no history. */
  function NewHighPass(cutoff: real, sampleRate: real): (e: Effect)
    requires cutoff > 0.0 && sampleRate > 0.0
    ensures e == HighPass(true, cutoff, sampleRate, 0.0, 0.0, HighPassAlpha(cutoff, sampleRate))
  {
    HighPass(true, cutoff, sampleRate, 0.0, 0.0, HighPassAlpha(cutoff, sampleRate))
  }

  /**
   * `set_cutoff` of either filter: the cutoff clamped into [20 Hz, rate/2] and the factor
   * recomputed. The clamp panics if rate/2 is below 20 Hz.
   */
  function SetCutoff(e: Effect, cutoff: real): (r: Effect)
    requires (e.LowPass? || e.HighPass?) && e.sampleRate >= 40.0
    ensures var c := Clamp(cutoff, 20.0, e.sampleRate / 2.0);
      20.0 <= c <= e.sampleRate / 2.0
      && (e.LowPass? ==> r == LowPass(e.enabled, c, e.sampleRate, e.prevSample, LowPassAlpha(c, e.sampleRate)))
      && (e.HighPass? ==>
            r == HighPass(e.enabled, c, e.sampleRate, e.prevInput, e.prevOutput, HighPassAlpha(c, e.sampleRate)))
  {
    var c := Clamp(cutoff, 20.0, e.sampleRate / 2.0);
    match e
    case LowPass(enabled, _, sampleRate, prev, _) => LowPass(enabled, c, sampleRate, prev, LowPassAlpha(c, sampleRate))
    case HighPass(enabled, _, sampleRate, prevIn, prevOut, _) =>
      HighPass(enabled, c, sampleRate, prevIn, prevOut, HighPassAlpha(c, sampleRate))
  }

  /** `Compressor::new`: -20 dB threshold, 4:1, 10 ms attack, 100 ms release, no makeup. */
  function NewCompressor(sampleRate: real): (e: Effect)
    ensures e == Compressor(true, -20.0, 4.0, 10.0, 100.0, 0.0, sampleRate, 0.0)
  {
    Compressor(true, -20.0, 4.0, 10.0, 100.0, 0.0, sampleRate, 0.0)
  }

  /** `NoiseGate::new`: -40 dB threshold, 1 ms attack, 50 ms release, closed. */
  function NewNoiseGate(sampleRate: real): (e: Effect)
    ensures e == NoiseGate(true, -40.0, 1.0, 50.0, sampleRate, 0.0)
  {
    NoiseGate(true, -40.0, 1.0, 50.0, sampleRate, 0.0)
  }

  const USIZE_MAX: int := 0xFFFF_FFFF_FFFF_FFFF

  /** `as usize` from a float: rounds toward zero, saturating at 0 and at the largest usize. */
  function AsUsize(x: real): (n: nat)
    ensures n <= USIZE_MAX
    ensures 0.0 <= x < USIZE_MAX as real ==> n == x.Floor
  {
    if x <= 0.0 then 0 else if x >= USIZE_MAX as real then USIZE_MAX else x.Floor
  }

  /**
   * `(delay_ms * 0.001 * sample_rate) as usize + 1`: one slot more than the delay in samples
   * (the addition wraps to zero at the saturated cast).
   */
  function DelaySize(delayMs: real, sampleRate: real): (n: nat)
    ensures n <= USIZE_MAX
    ensures delayMs * 0.001 * sampleRate < USIZE_MAX as real ==> n >= 1
  {
    var k := AsUsize(delayMs * 0.001 * sampleRate);
    if k == USIZE_MAX then 0 else k + 1
  }

  function Zeros(n: nat): (r: seq<real>)
    ensures |r| == n && forall i :: 0 <= i < n ==> r[i] == 0.0
  {
    seq(n, _ => 0.0)
  }

  /** `Delay::new`: enabled, feedback 0.3, an even mix, a silent buffer, writing at slot 0. */
  function NewDelay(delayMs: real, sampleRate: real): (e: Effect)
    ensures e == Delay(true, delayMs, 0.3, 0.5, Zeros(DelaySize(delayMs, sampleRate)), 0, sampleRate)
  {
    Delay(true, delayMs, 0.3, 0.5, Zeros(DelaySize(delayMs, sampleRate)), 0, sampleRate)
  }

  /** `Vec::resize(n, 0.0)`: cut to `n`, or extended with zeros. */
  function Resize(buffer: seq<real>, n: nat): (r: seq<real>)
    ensures |r| == n
    ensures forall i :: 0 <= i < n && i < |buffer| ==> r[i] == buffer[i]
    ensures forall i :: |buffer| <= i < n ==> r[i] == 0.0
  {
    if n <= |buffer| then buffer[..n] else buffer + Zeros(n - |buffer|)
  }

  /**
   * `Delay::set_delay`: a new size resizes the buffer and reduces the write position modulo
   * the new length (which panics when that length is zero); the same size keeps both.
   */
  function SetDelay(e: Effect, delayMs: real): (r: Effect)
    requires e.Delay?
    requires DelaySize(delayMs, e.sampleRate) != |e.buffer| ==> DelaySize(delayMs, e.sampleRate) > 0
    ensures r.Delay? && r.delayMs == delayMs
    ensures var n := DelaySize(delayMs, e.sampleRate);
      if n == |e.buffer| then r == e.(delayMs := delayMs)
      else r == e.(delayMs := delayMs, buffer := Resize(e.buffer, n), writePos := e.writePos % n)
  {
    var n := DelaySize(delayMs, e.sampleRate);
    if n != |e.buffer| then e.(delayMs := delayMs, buffer := Resize(e.buffer, n), writePos := e.writePos % n)
    else e.(delayMs := delayMs)
  }

  /** A delay's write position lies inside its non-empty buffer. */
  predicate WellFormed(e: Effect)
  {
    e.Delay? && |e.buffer| > 0 ==> e.writePos < |e.buffer|
  }

  /** A new delay is well formed, and `set_delay` keeps it so. */
  lemma DelayStaysWellFormed(delayMs: real, sampleRate: real, e: Effect, newMs: real)
    requires e.Delay? && WellFormed(e)
    requires DelaySize(newMs, e.sampleRate) != |e.buffer| ==> DelaySize(newMs, e.sampleRate) > 0
    ensures WellFormed(NewDelay(delayMs, sampleRate))
    ensures WellFormed(SetDelay(e, newMs))
  {
  }

  // ----- other Effect trait methods -----

  /** `reset`: the state an effect carries between buffers goes back to silence. */
  function ResetEffect(e: Effect): (r: Effect)
    ensures r.enabled == e.enabled
    ensures e.Gain? ==> r == e
    ensures e.LowPass? ==> r == e.(prevSample := 0.0)
    ensures e.HighPass? ==> r == e.(prevInput := 0.0, prevOutput := 0.0)
    ensures e.Compressor? ==> r == e.(envelope := 0.0)
    ensures e.Delay? ==> r == e.(buffer := Zeros(|e.buffer|), writePos := 0)
    ensures e.NoiseGate? ==> r == e.(gateOpen := 0.0)
  {
    match e
    case Gain(_, _) => e
    case LowPass(_, _, _, _, _) => e.(prevSample := 0.0)
    case HighPass(_, _, _, _, _, _) => e.(prevInput := 0.0, prevOutput := 0.0)
    case Compressor(_, _, _, _, _, _, _, _) => e.(envelope := 0.0)
    case Delay(_, _, _, _, _, _, _) => e.(buffer := Zeros(|e.buffer|), writePos := 0)
    case NoiseGate(_, _, _, _, _, _) => e.(gateOpen := 0.0)
  }

  /** `name`. */
  function Name(e: Effect): (r: string)
    ensures |r| > 0
  {
    match e
    case Gain(_, _) => "Gain"
    case LowPass(_, _, _, _, _) => "Low-Pass Filter"
    case HighPass(_, _, _, _, _, _) => "High-Pass Filter"
    case Compressor(_, _, _, _, _, _, _, _) => "Compressor"
    case Delay(_, _, _, _, _, _, _) => "Delay"
    case NoiseGate(_, _, _, _, _, _) => "Noise Gate"
  }

  /** `set_enabled`. */
  function SetEnabled(e: Effect, enabled: bool): (r: Effect)
    ensures r.enabled == enabled && r.(enabled := e.enabled) == e
  {
    e.(enabled := enabled)
  }

  /** Two effects of the same kind. */
  predicate SameKind(e: Effect, f: Effect)
  {
    (e.Gain? && f.Gain?) || (e.LowPass? && f.LowPass?) || (e.HighPass? && f.HighPass?)
    || (e.Compressor? && f.Compressor?) || (e.Delay? && f.Delay?) || (e.NoiseGate? && f.NoiseGate?)
  }

  /** The display names tell the kinds apart: two effects share a name exactly when they share a kind. */
  lemma NamesDistinct(e: Effect, f: Effect)
    ensures Name(e) == Name(f) <==> SameKind(e, f)
  {
  }

  // ----- processing -----

  /** Whether `process` touches the samples: enabled, and for a delay a non-empty buffer. */
  predicate Active(e: Effect)
    ensures !e.enabled ==> !Active(e)
    ensures e.Delay? && e.buffer == [] ==> !Active(e)
  {
    e.enabled && (e.Delay? ==> |e.buffer| > 0)
  }

  /**
   * f32 division. A zero divisor gives an infinity or NaN, which are not reals: `overZero`
   * stands for that result.
   */
  function Div(m: Math, a: real, b: real): real
  {
    if b == 0.0 then m.overZero(a) else a / b
  }

  /** `exp(-1 / (ms · 0.001 · rate))`: the per-sample decay of a time constant. */
  function Decay(m: Math, ms: real, sampleRate: real): real
  {
    m.exp(Div(m, -1.0, ms * 0.001 * sampleRate))
  }

  /** What a loop with one real of state leaves behind: that state, and the samples it wrote. */
  datatype Filtered = Filtered(state: real, out: seq<real>)

  // Gain

  /** Every sample times the gain. */
  function Scaled(xs: seq<real>, gain: real): (r: seq<real>)
    ensures |r| == |xs| && forall i :: 0 <= i < |xs| ==> r[i] == xs[i] * gain
  {
    seq(|xs|, i requires 0 <= i < |xs| => xs[i] * gain)
  }

  /** The gain's loop: each sample scaled in place. */
  method GainProcess(gain: real, a: array<real>)
    modifies a
    ensures a[..] == Scaled(old(a[..]), gain)
  {
    ghost var input := a[..];
    for i := 0 to a.Length
      invariant forall k :: 0 <= k < i ==> a[k] == input[k] * gain
      invariant forall k :: i <= k < a.Length ==> a[k] == input[k]
    {
      a[i] := a[i] * gain;
    }
    assert forall k :: 0 <= k < a.Length ==> a[..][k] == Scaled(input, gain)[k];
  }

  // Low-pass filter

  /** One low-pass output: the previous one moved toward the input by `α`. */
  function Smooth(alpha: real, prev: real, x: real): real
  {
    prev + alpha * (x - prev)
  }

  /** The low-pass loop from a previous output `prev`. */
  function LowPassRun(alpha: real, prev: real, xs: seq<real>): (r: Filtered)
    ensures |r.out| == |xs|
    ensures xs != [] ==> r.state == r.out[|xs| - 1]
  {
    if xs == [] then Filtered(prev, [])
    else
      var before := LowPassRun(alpha, prev, xs[..|xs| - 1]);
      var y := Smooth(alpha, before.state, xs[|xs| - 1]);
      Filtered(y, before.out + [y])
  }

  lemma LowPassRunSnoc(alpha: real, prev: real, xs: seq<real>, x: real)
    ensures var before := LowPassRun(alpha, prev, xs);
      var y := Smooth(alpha, before.state, x);
      LowPassRun(alpha, prev, xs + [x]) == Filtered(y, before.out + [y])
  {
    var ys := xs + [x];
    assert ys[..|ys| - 1] == xs;
    assert LowPassRun(alpha, prev, ys[..|ys| - 1]) == LowPassRun(alpha, prev, xs);
  }

  /** The low-pass loop in place; the state returned is the new `prev_sample`. */
  method LowPassProcess(alpha: real, prev: real, a: array<real>) returns (state: real)
    modifies a
    ensures Filtered(state, a[..]) == LowPassRun(alpha, prev, old(a[..]))
  {
    ghost var input := a[..];
    state := prev;
    for i := 0 to a.Length
      invariant forall k :: i <= k < a.Length ==> a[k] == input[k]
      invariant Filtered(state, a[..i]) == LowPassRun(alpha, prev, input[..i])
    {
      ghost var done := a[..i];
      var x := a[i];
      LowPassRunSnoc(alpha, prev, input[..i], x);
      assert input[..i] + [x] == input[..i + 1];
      state := Smooth(alpha, state, x);
      a[i] := state;
      assert a[..i + 1] == done + [state];
    }
    assert a[..] == a[..a.Length] && input == input[..a.Length];
  }

  /** Smoothing by `α` in [0, 1] stays within a bound that the previous output and the input respect. */
  lemma SmoothBounded(alpha: real, p: real, x: real, bound: real)
    requires 0.0 <= alpha <= 1.0 && Abs(p) <= bound && Abs(x) <= bound
    ensures Abs(Smooth(alpha, p, x)) <= bound
  {
    Ints.MulNonneg(1.0 - alpha, bound - p);
    Ints.MulNonneg(1.0 - alpha, bound + p);
    Ints.MulNonneg(alpha, bound - x);
    Ints.MulNonneg(alpha, bound + x);
    assert p + alpha * (x - p) == (1.0 - alpha) * p + alpha * x;
    assert (1.0 - alpha) * bound + alpha * bound == bound;
  }

  /**
   * The low-pass output is a running weighted average, so it never leaves a bound that the
   * previous output and every input respect.
   */
  lemma {:induction false} LowPassBounded(alpha: real, prev: real, xs: seq<real>, bound: real)
    requires 0.0 <= alpha <= 1.0 && Abs(prev) <= bound
    requires forall i :: 0 <= i < |xs| ==> Abs(xs[i]) <= bound
    ensures Abs(LowPassRun(alpha, prev, xs).state) <= bound
    ensures forall i :: 0 <= i < |xs| ==> Abs(LowPassRun(alpha, prev, xs).out[i]) <= bound
  {
    if xs != [] {
      var before := LowPassRun(alpha, prev, xs[..|xs| - 1]);
      LowPassBounded(alpha, prev, xs[..|xs| - 1], bound);
      SmoothBounded(alpha, before.state, xs[|xs| - 1], bound);
    }
  }

  // High-pass filter

  /** What the high-pass filter carries between samples. */
  datatype HighPassState = HighPassState(prevInput: real, prevOutput: real)

  /** What the high-pass loop leaves behind. */
  datatype HighPassed = HighPassed(state: HighPassState, out: seq<real>)

  /** One high-pass output: `α·(prev_out + x − prev_in)`. */
  function HighPassOut(alpha: real, s: HighPassState, x: real): real
  {
    alpha * (s.prevOutput + x - s.prevInput)
  }

  /** The high-pass loop; after each sample the input becomes `prev_in` and the output `prev_out`. */
  function HighPassRun(alpha: real, s: HighPassState, xs: seq<real>): (r: HighPassed)
    ensures |r.out| == |xs|
    ensures xs != [] ==> r.state == HighPassState(xs[|xs| - 1], r.out[|xs| - 1])
  {
    if xs == [] then HighPassed(s, [])
    else
      var before := HighPassRun(alpha, s, xs[..|xs| - 1]);
      var x := xs[|xs| - 1];
      var y := HighPassOut(alpha, before.state, x);
      HighPassed(HighPassState(x, y), before.out + [y])
  }

  lemma HighPassRunSnoc(alpha: real, s: HighPassState, xs: seq<real>, x: real)
    ensures var before := HighPassRun(alpha, s, xs);
      var y := HighPassOut(alpha, before.state, x);
      HighPassRun(alpha, s, xs + [x]) == HighPassed(HighPassState(x, y), before.out + [y])
  {
    var ys := xs + [x];
    assert ys[..|ys| - 1] == xs;
    assert HighPassRun(alpha, s, ys[..|ys| - 1]) == HighPassRun(alpha, s, xs);
  }

  /** The high-pass loop in place. */
  method HighPassProcess(alpha: real, s: HighPassState, a: array<real>) returns (state: HighPassState)
    modifies a
    ensures HighPassed(state, a[..]) == HighPassRun(alpha, s, old(a[..]))
  {
    ghost var input := a[..];
    state := s;
    for i := 0 to a.Length
      invariant forall k :: i <= k < a.Length ==> a[k] == input[k]
      invariant HighPassed(state, a[..i]) == HighPassRun(alpha, s, input[..i])
    {
      ghost var done := a[..i];
      var x := a[i];
      HighPassRunSnoc(alpha, s, input[..i], x);
      assert input[..i] + [x] == input[..i + 1];
      var y := HighPassOut(alpha, state, x);
      state := HighPassState(x, y);
      a[i] := y;
      assert a[..i + 1] == done + [y];
    }
    assert a[..] == a[..a.Length] && input == input[..a.Length];
  }

  /** `y` scaled by the factor `α`. */
  function Damp(alpha: real, y: real): real
  {
    alpha * y
  }

  /** Each sample after the first is the one before times `α`. */
  predicate Decays(alpha: real, out: seq<real>)
  {
    forall i :: 0 < i < |out| ==> out[i] == Damp(alpha, out[i - 1])
  }

  lemma DecaysSnoc(alpha: real, out: seq<real>, y: real)
    requires Decays(alpha, out) && out != [] && y == Damp(alpha, out[|out| - 1])
    ensures Decays(alpha, out + [y])
  {
    var ys := out + [y];
    forall i | 0 < i < |ys|
      ensures ys[i] == Damp(alpha, ys[i - 1])
    {
      if i < |out| {
        assert ys[i] == out[i] && ys[i - 1] == out[i - 1];
      }
    }
  }

  /**
   * The high-pass filter blocks a constant: on an input that stays at the last input seen,
   * the first output is the previous output times `α` and each later one the one before times
   * `α`, so it dies away geometrically.
   */
  lemma {:induction false} HighPassBlocksConstant(alpha: real, s: HighPassState, xs: seq<real>)
    requires forall i :: 0 <= i < |xs| ==> xs[i] == s.prevInput
    ensures var out := HighPassRun(alpha, s, xs).out;
      (|xs| > 0 ==> out[0] == Damp(alpha, s.prevOutput)) && Decays(alpha, out)
  {
    if xs != [] {
      var init := xs[..|xs| - 1];
      HighPassBlocksConstant(alpha, s, init);
      var before := HighPassRun(alpha, s, init);
      var x := xs[|xs| - 1];
      if init != [] {
        var last := before.out[|init| - 1];
        assert before.state == HighPassState(s.prevInput, last);
        HighPassOutOnRepeat(alpha, s.prevInput, last);
        DecaysSnoc(alpha, before.out, HighPassOut(alpha, before.state, x));
      } else {
        HighPassOutOnRepeat(alpha, s.prevInput, s.prevOutput);
      }
    }
  }

  /** When the input repeats the previous input, the high-pass output is the previous output times `α`. */
  lemma HighPassOutOnRepeat(alpha: real, x: real, prevOutput: real)
    ensures HighPassOut(alpha, HighPassState(x, prevOutput), x) == Damp(alpha, prevOutput)
  {
  }

  // Compressor

  /** The factors `process` computes once per buffer from the compressor's parameters. */
  datatype CompressorCoeffs = CompressorCoeffs(attack: real, release: real, threshold: real, makeup: real, ratio: real)

  function CompressorCoeffsOf(m: Math, e: Effect): (c: CompressorCoeffs)
    requires e.Compressor?
    ensures c.threshold > 0.0 && c.makeup > 0.0 && c.ratio == e.ratio
  {
    CompressorCoeffs(Decay(m, e.attackMs, e.sampleRate), Decay(m, e.releaseMs, e.sampleRate),
                     DbToLinear(m, e.thresholdDb), DbToLinear(m, e.makeupDb), e.ratio)
  }

  /** The envelope follower: the attack factor when the input rises above it, else the release. */
  function Follow(c: CompressorCoeffs, env: real, x: real): real
  {
    var inputAbs := Abs(x);
    if inputAbs > env then c.attack * env + (1.0 - c.attack) * inputAbs
    else c.release * env + (1.0 - c.release) * inputAbs
  }

  /** The gain for an envelope: unity up to the threshold, the level over it divided by the ratio above. */
  function CompressorGain(m: Math, c: CompressorCoeffs, env: real): real
    requires c.threshold > 0.0
  {
    if env > c.threshold then
      var overDb := LinearToDb(m, env / c.threshold);
      DbToLinear(m, Div(m, overDb, c.ratio) - overDb)
    else 1.0
  }

  /** A sample through the gain for the envelope, then the makeup gain. */
  function Compressed(m: Math, c: CompressorCoeffs, env: real, x: real): real
    requires c.threshold > 0.0
  {
    x * (CompressorGain(m, c, env) * c.makeup)
  }

  /** The compressor loop from envelope `env`: the envelope follows each sample, then gains it. */
  function CompressorRun(m: Math, c: CompressorCoeffs, env: real, xs: seq<real>): (r: Filtered)
    requires c.threshold > 0.0
    ensures |r.out| == |xs|
  {
    if xs == [] then Filtered(env, [])
    else
      var before := CompressorRun(m, c, env, xs[..|xs| - 1]);
      var x := xs[|xs| - 1];
      var next := Follow(c, before.state, x);
      Filtered(next, before.out + [Compressed(m, c, next, x)])
  }

  lemma CompressorRunSnoc(m: Math, c: CompressorCoeffs, env: real, xs: seq<real>, x: real)
    requires c.threshold > 0.0
    ensures var before := CompressorRun(m, c, env, xs);
      var next := Follow(c, before.state, x);
      CompressorRun(m, c, env, xs + [x]) == Filtered(next, before.out + [Compressed(m, c, next, x)])
  {
    var ys := xs + [x];
    assert ys[..|ys| - 1] == xs;
    assert CompressorRun(m, c, env, ys[..|ys| - 1]) == CompressorRun(m, c, env, xs);
  }

  /** The compressor loop in place; the state returned is the new envelope. */
  method CompressorProcess(m: Math, c: CompressorCoeffs, env: real, a: array<real>) returns (state: real)
    requires c.threshold > 0.0
    modifies a
    ensures Filtered(state, a[..]) == CompressorRun(m, c, env, old(a[..]))
  {
    ghost var input := a[..];
    state := env;
    for i := 0 to a.Length
      invariant forall k :: i <= k < a.Length ==> a[k] == input[k]
      invariant Filtered(state, a[..i]) == CompressorRun(m, c, env, input[..i])
    {
      ghost var done := a[..i];
      var x := a[i];
      CompressorRunSnoc(m, c, env, input[..i], x);
      assert input[..i] + [x] == input[..i + 1];
      state := Follow(c, state, x);
      var y := Compressed(m, c, state, x);
      a[i] := y;
      assert a[..i + 1] == done + [y];
    }
    assert a[..] == a[..a.Length] && input == input[..a.Length];
  }

  /** With factors in [0, 1], the envelope never rises above the larger of itself and the input level. */
  lemma FollowBounded(c: CompressorCoeffs, env: real, x: real, bound: real)
    requires 0.0 <= c.attack <= 1.0 && 0.0 <= c.release <= 1.0
    requires 0.0 <= env <= bound && Abs(x) <= bound
    ensures 0.0 <= Follow(c, env, x) <= bound
  {
    var ax := Abs(x);
    Ints.MulNonneg(c.attack, bound - env);
    Ints.MulNonneg(1.0 - c.attack, bound - ax);
    Ints.MulNonneg(c.release, bound - env);
    Ints.MulNonneg(1.0 - c.release, bound - ax);
    Ints.MulNonneg(c.attack, env);
    Ints.MulNonneg(1.0 - c.attack, ax);
    Ints.MulNonneg(c.release, env);
    Ints.MulNonneg(1.0 - c.release, ax);
  }

  /**
   * Below the threshold the compressor does not compress: when the envelope and every input
   * stay at or under it, the envelope stays there and each sample only gets the makeup gain.
   */
  lemma {:induction false} CompressorBelowThreshold(m: Math, c: CompressorCoeffs, env: real, xs: seq<real>)
    requires 0.0 <= c.attack <= 1.0 && 0.0 <= c.release <= 1.0 && c.threshold > 0.0
    requires 0.0 <= env <= c.threshold
    requires forall i :: 0 <= i < |xs| ==> Abs(xs[i]) <= c.threshold
    ensures 0.0 <= CompressorRun(m, c, env, xs).state <= c.threshold
    ensures CompressorRun(m, c, env, xs).out == Scaled(xs, c.makeup)
  {
    if xs != [] {
      var init := xs[..|xs| - 1];
      CompressorBelowThreshold(m, c, env, init);
      var before := CompressorRun(m, c, env, init);
      var x := xs[|xs| - 1];
      FollowBounded(c, before.state, x, c.threshold);
      CompressedAtUnity(m, c, Follow(c, before.state, x), x);
      ScaledSnoc(init, x, c.makeup);
      assert init + [x] == xs;
    }
  }

  /** At or under the threshold the compressor applies only the makeup gain. */
  lemma CompressedAtUnity(m: Math, c: CompressorCoeffs, env: real, x: real)
    requires c.threshold > 0.0 && env <= c.threshold
    ensures Compressed(m, c, env, x) == Scaled([x], c.makeup)[0]
  {
  }

  lemma ScaledSnoc(xs: seq<real>, x: real, gain: real)
    ensures Scaled(xs + [x], gain) == Scaled(xs, gain) + Scaled([x], gain)
  {
    var l, r := Scaled(xs + [x], gain), Scaled(xs, gain) + Scaled([x], gain);
    assert |l| == |r|;
    forall k | 0 <= k < |l|
      ensures l[k] == r[k]
    {
      if k < |xs| {
        assert (xs + [x])[k] == xs[k];
      }
    }
  }

  // Noise gate

  /** The factors `process` computes once per buffer from the gate's parameters. */
  datatype GateCoeffs = GateCoeffs(threshold: real, attack: real, release: real)

  function GateCoeffsOf(m: Math, e: Effect): (c: GateCoeffs)
    requires e.NoiseGate?
    ensures c.threshold > 0.0
  {
    GateCoeffs(DbToLinear(m, e.thresholdDb), 1.0 - Decay(m, e.attackMs, e.sampleRate),
               1.0 - Decay(m, e.releaseMs, e.sampleRate))
  }

  /** The gate moves toward open (1) above the threshold and toward shut (0) at or below it. */
  function GateStep(c: GateCoeffs, gate: real, x: real): real
  {
    var target := if Abs(x) > c.threshold then 1.0 else 0.0;
    if target > gate then gate + c.attack * (target - gate) else gate + c.release * (target - gate)
  }

  /** A sample through the gate at opening `g`. */
  function Gated(x: real, g: real): real
  {
    x * g
  }

  /** The gate loop from opening `gate`: the opening moves, then the sample is scaled by it. */
  function GateRun(c: GateCoeffs, gate: real, xs: seq<real>): (r: Filtered)
    ensures |r.out| == |xs|
  {
    if xs == [] then Filtered(gate, [])
    else
      var before := GateRun(c, gate, xs[..|xs| - 1]);
      var x := xs[|xs| - 1];
      var g := GateStep(c, before.state, x);
      Filtered(g, before.out + [Gated(x, g)])
  }

  lemma GateRunSnoc(c: GateCoeffs, gate: real, xs: seq<real>, x: real)
    ensures var before := GateRun(c, gate, xs);
      var g := GateStep(c, before.state, x);
      GateRun(c, gate, xs + [x]) == Filtered(g, before.out + [Gated(x, g)])
  {
    var ys := xs + [x];
    assert ys[..|ys| - 1] == xs;
    assert GateRun(c, gate, ys[..|ys| - 1]) == GateRun(c, gate, xs);
  }

  /** The gate loop in place; the state returned is the new opening. */
  method GateProcess(c: GateCoeffs, gate: real, a: array<real>) returns (state: real)
    modifies a
    ensures Filtered(state, a[..]) == GateRun(c, gate, old(a[..]))
  {
    ghost var input := a[..];
    state := gate;
    for i := 0 to a.Length
      invariant forall k :: i <= k < a.Length ==> a[k] == input[k]
      invariant Filtered(state, a[..i]) == GateRun(c, gate, input[..i])
    {
      ghost var done := a[..i];
      var x := a[i];
      GateRunSnoc(c, gate, input[..i], x);
      assert input[..i] + [x] == input[..i + 1];
      state := GateStep(c, state, x);
      var y := Gated(x, state);
      a[i] := y;
      assert a[..i + 1] == done + [y];
    }
    assert a[..] == a[..a.Length] && input == input[..a.Length];
  }

  /** With factors in [0, 1], one step keeps the opening in [0, 1]. */
  lemma GateStepInUnit(c: GateCoeffs, gate: real, x: real)
    requires 0.0 <= c.attack <= 1.0 && 0.0 <= c.release <= 1.0 && 0.0 <= gate <= 1.0
    ensures 0.0 <= GateStep(c, gate, x) <= 1.0
  {
    Ints.MulNonneg(c.attack, 1.0 - gate);
    Ints.MulNonneg(1.0 - c.attack, 1.0 - gate);
    Ints.MulNonneg(c.release, gate);
    Ints.MulNonneg(1.0 - c.release, gate);
  }

  /** Gating by an opening in [0, 1] never makes a sample louder. */
  lemma GatedQuieter(x: real, g: real)
    requires 0.0 <= g <= 1.0
    ensures Abs(Gated(x, g)) <= Abs(x)
  {
    if x >= 0.0 {
      Ints.MulNonneg(x, 1.0 - g);
      Ints.MulNonneg(x, g);
    } else {
      Ints.MulNonneg(-x, 1.0 - g);
      Ints.MulNonneg(-x, g);
    }
  }

  /**
   * A gate opening stays between shut and open, so the gate only ever attenuates: no output
   * sample is louder than its input.
   */
  lemma {:induction false} GateAttenuates(c: GateCoeffs, gate: real, xs: seq<real>)
    requires 0.0 <= c.attack <= 1.0 && 0.0 <= c.release <= 1.0 && 0.0 <= gate <= 1.0
    ensures 0.0 <= GateRun(c, gate, xs).state <= 1.0
    ensures forall i :: 0 <= i < |xs| ==> Abs(GateRun(c, gate, xs).out[i]) <= Abs(xs[i])
  {
    if xs != [] {
      var init := xs[..|xs| - 1];
      GateAttenuates(c, gate, init);
      var before := GateRun(c, gate, init);
      var x := xs[|xs| - 1];
      GateStepInUnit(c, before.state, x);
      GatedQuieter(x, GateStep(c, before.state, x));
    }
  }

  // Delay

  /** The delay's ring buffer and the slot it writes next. */
  datatype DelayLine = DelayLine(buffer: seq<real>, pos: nat)

  predicate LineValid(line: DelayLine)
  {
    line.pos < |line.buffer|
  }

  /**
   * The delay loop: read the slot written a buffer length ago, store the input plus that read
   * times the feedback, mix dry and delayed, and move round the ring.
   */
  function DelayRun(feedback: real, mix: real, line: DelayLine, xs: seq<real>): (r: Delayed)
    requires LineValid(line)
    ensures |r.out| == |xs| && LineValid(r.state) && |r.state.buffer| == |line.buffer|
  {
    if xs == [] then Delayed(line, [])
    else
      var before := DelayRun(feedback, mix, line, xs[..|xs| - 1]);
      var step := DelayStep(feedback, mix, before.state, xs[|xs| - 1]);
      Delayed(step.state, before.out + step.out)
  }

  /** What the delay loop leaves behind. */
  datatype Delayed = Delayed(state: DelayLine, out: seq<real>)

  /** What goes into the ring: the input plus the delayed sample times the feedback. */
  function Feed(feedback: real, x: real, delayed: real): real
  {
    x + delayed * feedback
  }

  /** What comes out: dry and delayed in the proportion of the mix. */
  function Mix(mix: real, x: real, delayed: real): real
  {
    x * (1.0 - mix) + delayed * mix
  }

  /** One sample through the delay line. */
  function DelayStep(feedback: real, mix: real, line: DelayLine, x: real): (r: Delayed)
    requires LineValid(line)
    ensures LineValid(r.state) && |r.state.buffer| == |line.buffer| && |r.out| == 1
    ensures r.state.pos == (line.pos + 1) % |line.buffer|
    ensures forall k :: 0 <= k < |line.buffer| && k != line.pos ==> r.state.buffer[k] == line.buffer[k]
    ensures r.out == [Mix(mix, x, line.buffer[line.pos])]
  {
    var delayed := line.buffer[line.pos];
    Delayed(DelayLine(line.buffer[line.pos := Feed(feedback, x, delayed)], (line.pos + 1) % |line.buffer|),
            [Mix(mix, x, delayed)])
  }

  lemma DelayRunSnoc(feedback: real, mix: real, line: DelayLine, xs: seq<real>, x: real)
    requires LineValid(line)
    ensures var before := DelayRun(feedback, mix, line, xs);
      var step := DelayStep(feedback, mix, before.state, x);
      DelayRun(feedback, mix, line, xs + [x]) == Delayed(step.state, before.out + step.out)
  {
    var ys := xs + [x];
    assert ys[..|ys| - 1] == xs;
    assert DelayRun(feedback, mix, line, ys[..|ys| - 1]) == DelayRun(feedback, mix, line, xs);
  }

  /** The delay loop in place, with the feedback already clamped. */
  method DelayProcess(feedback: real, mix: real, line: DelayLine, a: array<real>) returns (state: DelayLine)
    requires LineValid(line)
    modifies a
    ensures Delayed(state, a[..]) == DelayRun(feedback, mix, line, old(a[..]))
  {
    ghost var input := a[..];
    var buffer: seq<real>, pos: nat := line.buffer, line.pos;
    for i := 0 to a.Length
      invariant forall k :: i <= k < a.Length ==> a[k] == input[k]
      invariant Delayed(DelayLine(buffer, pos), a[..i]) == DelayRun(feedback, mix, line, input[..i])
    {
      ghost var done, before := a[..i], DelayLine(buffer, pos);
      var x := a[i];
      DelayRunSnoc(feedback, mix, line, input[..i], x);
      assert input[..i] + [x] == input[..i + 1];
      var delayed := buffer[pos];
      buffer := buffer[pos := Feed(feedback, x, delayed)];
      var y := Mix(mix, x, delayed);
      a[i] := y;
      pos := (pos + 1) % |buffer|;
      assert Delayed(DelayLine(buffer, pos), [y]) == DelayStep(feedback, mix, before, x);
      assert a[..i + 1] == done + [y];
    }
    assert a[..] == a[..a.Length] && input == input[..a.Length];
    state := DelayLine(buffer, pos);
  }

  /** Over `n` samples the write position advances by `n` round the ring. */
  lemma {:induction false} DelayAdvances(feedback: real, mix: real, line: DelayLine, xs: seq<real>)
    requires LineValid(line)
    ensures DelayRun(feedback, mix, line, xs).state.pos == (line.pos + |xs|) % |line.buffer|
  {
    if xs != [] {
      DelayAdvances(feedback, mix, line, xs[..|xs| - 1]);
      ModStep(line.pos + |xs| - 1, |line.buffer|);
    }
  }

  lemma ModStep(k: nat, len: nat)
    requires len > 0
    ensures (k % len + 1) % len == (k + 1) % len
  {
    var q, r := k / len, k % len;
    assert k == q * len + r;
    if r + 1 == len {
      assert k + 1 == (q + 1) * len + 0;
      Ints.DivUnique(k + 1, len, q + 1, 0);
    } else {
      assert k + 1 == q * len + (r + 1);
      Ints.DivUnique(k + 1, len, q, r + 1);
    }
  }

  /** The slot the `j`-th sample of a run from position `p` writes. */
  function Slot(p: nat, j: nat, len: nat): nat
    requires len > 0
  {
    (p + j) % len
  }

  /** A run of `n` samples from position `p` writes slot `k`. */
  predicate Visited(p: nat, n: nat, len: nat, k: nat)
    requires len > 0
  {
    exists j: nat :: j < n && Slot(p, j, len) == k
  }

  /** A slot the run does not reach still holds what it held at the start. */
  lemma {:induction false} DelayUntouched(feedback: real, mix: real, line: DelayLine, xs: seq<real>, k: nat)
    requires LineValid(line) && k < |line.buffer|
    requires !Visited(line.pos, |xs|, |line.buffer|, k)
    ensures DelayRun(feedback, mix, line, xs).state.buffer[k] == line.buffer[k]
  {
    if xs != [] {
      var init := xs[..|xs| - 1];
      DelayUntouched(feedback, mix, line, init, k);
      DelayAdvances(feedback, mix, line, init);
      assert DelayRun(feedback, mix, line, init).state.pos == Slot(line.pos, |init|, |line.buffer|);
    }
  }

  /** Residues of fewer than `len` consecutive numbers are distinct. */
  lemma ResiduesDistinct(p: nat, i: nat, j: nat, len: nat)
    requires 0 <= j < i < len
    ensures Slot(p, j, len) != Slot(p, i, len)
  {
    var q, r := (p + j) / len, (p + j) % len;
    var d := i - j;
    assert p + j == q * len + r;
    assert p + i == q * len + (r + d);
    if r + d < len {
      Ints.DivUnique(p + i, len, q, r + d);
    } else {
      assert p + i == (q + 1) * len + (r + d - len);
      Ints.DivUnique(p + i, len, q + 1, r + d - len);
    }
  }

  /** Within one pass round the ring, the slot read at the `i`-th sample has not been written. */
  lemma FirstPassReadsOriginal(feedback: real, mix: real, line: DelayLine, xs: seq<real>, i: nat)
    requires LineValid(line) && i < |xs| && i < |line.buffer|
    ensures var before := DelayRun(feedback, mix, line, xs[..i]).state;
      before.buffer[before.pos] == line.buffer[Slot(line.pos, i, |line.buffer|)]
  {
    var len := |line.buffer|;
    var k := Slot(line.pos, i, len);
    DelayAdvances(feedback, mix, line, xs[..i]);
    forall j: nat | j < i
      ensures Slot(line.pos, j, len) != k
    {
      ResiduesDistinct(line.pos, i, j, len);
    }
    DelayUntouched(feedback, mix, line, xs[..i], k);
  }

  /** A run over a prefix writes a prefix of the output. */
  lemma {:induction false} DelayRunPrefix(feedback: real, mix: real, line: DelayLine, xs: seq<real>, n: nat)
    requires LineValid(line) && n <= |xs|
    ensures DelayRun(feedback, mix, line, xs[..n]).out == DelayRun(feedback, mix, line, xs).out[..n]
    decreases |xs|
  {
    if n < |xs| {
      assert xs[..|xs| - 1][..n] == xs[..n];
      DelayRunPrefix(feedback, mix, line, xs[..|xs| - 1], n);
    } else {
      assert xs[..n] == xs;
    }
  }

  /**
   * A fully wet delay on a silent buffer outputs silence for its first buffer length of
   * samples: what it plays back was stored a whole pass round the ring earlier.
   */
  lemma FreshDelaySilent(feedback: real, line: DelayLine, xs: seq<real>)
    requires LineValid(line) && |xs| <= |line.buffer|
    requires forall k :: 0 <= k < |line.buffer| ==> line.buffer[k] == 0.0
    ensures forall i :: 0 <= i < |xs| ==> DelayRun(feedback, 1.0, line, xs).out[i] == 0.0
  {
    forall i | 0 <= i < |xs|
      ensures DelayRun(feedback, 1.0, line, xs).out[i] == 0.0
    {
      FirstPassReadsOriginal(feedback, 1.0, line, xs, i);
      assert xs[..i + 1][..i] == xs[..i];
      DelayRunPrefix(feedback, 1.0, line, xs, i + 1);
    }
  }

  // Dispatch

  /**
   * `process` of any effect: an inactive one leaves the samples and itself as they were;
   * otherwise its own loop runs and its carried state is updated.
   */
  function Process(m: Math, e: Effect, xs: seq<real>): (r: Processed)
    requires WellFormed(e)
    ensures !Active(e) ==> r == Processed(e, xs)
    ensures |r.out| == |xs| && WellFormed(r.effect) && SameShape(e, r.effect)
  {
    if !Active(e) then Processed(e, xs)
    else match e
    case Gain(_, gain) => Processed(e, Scaled(xs, gain))
    case LowPass(_, _, _, prev, alpha) =>
      var r := LowPassRun(alpha, prev, xs);
      Processed(e.(prevSample := r.state), r.out)
    case HighPass(_, _, _, prevIn, prevOut, alpha) =>
      var r := HighPassRun(alpha, HighPassState(prevIn, prevOut), xs);
      Processed(e.(prevInput := r.state.prevInput, prevOutput := r.state.prevOutput), r.out)
    case Compressor(_, _, _, _, _, _, _, env) =>
      var r := CompressorRun(m, CompressorCoeffsOf(m, e), env, xs);
      Processed(e.(envelope := r.state), r.out)
    case Delay(_, _, feedback, mix, buffer, pos, _) =>
      var r := DelayRun(Clamp(feedback, 0.0, 0.95), mix, DelayLine(buffer, pos), xs);
      Processed(e.(buffer := r.state.buffer, writePos := r.state.pos), r.out)
    case NoiseGate(_, _, _, _, _, gate) =>
      var r := GateRun(GateCoeffsOf(m, e), gate, xs);
      Processed(e.(gateOpen := r.state), r.out)
  }

  /** An effect after one call of `process`, and the samples it wrote. */
  datatype Processed = Processed(effect: Effect, out: seq<real>)

  /** Same kind, same parameters, same buffer length; only the carried state may differ. */
  predicate SameShape(a: Effect, b: Effect)
  {
    match a
    case Gain(_, _) => b == a
    case LowPass(_, _, _, _, _) => b.LowPass? && b == a.(prevSample := b.prevSample)
    case HighPass(_, _, _, _, _, _) => b.HighPass? && b == a.(prevInput := b.prevInput, prevOutput := b.prevOutput)
    case Compressor(_, _, _, _, _, _, _, _) => b.Compressor? && b == a.(envelope := b.envelope)
    case Delay(_, _, _, _, _, _, _) =>
      b.Delay? && |b.buffer| == |a.buffer| && b == a.(buffer := b.buffer, writePos := b.writePos)
    case NoiseGate(_, _, _, _, _, _) => b.NoiseGate? && b == a.(gateOpen := b.gateOpen)
  }

  /** A disabled effect of any kind passes every buffer through untouched. */
  lemma DisabledBypass(m: Math, e: Effect, xs: seq<real>)
    requires WellFormed(e) && !e.enabled
    ensures Process(m, e, xs) == Processed(e, xs)
  {
  }

  /** `process` in place, through the effect's own loop. */
  method ProcessInPlace(m: Math, e: Effect, a: array<real>) returns (next: Effect)
    requires WellFormed(e)
    modifies a
    ensures Process(m, e, old(a[..])) == Processed(next, a[..])
  {
    if !Active(e) {
      return e;
    }
    match e
    case Gain(_, gain) =>
      GainProcess(gain, a);
      next := e;
    case LowPass(_, _, _, prev, alpha) =>
      var s := LowPassProcess(alpha, prev, a);
      next := e.(prevSample := s);
    case HighPass(_, _, _, prevIn, prevOut, alpha) =>
      var s := HighPassProcess(alpha, HighPassState(prevIn, prevOut), a);
      next := e.(prevInput := s.prevInput, prevOutput := s.prevOutput);
    case Compressor(_, _, _, _, _, _, _, env) =>
      var s := CompressorProcess(m, CompressorCoeffsOf(m, e), env, a);
      next := e.(envelope := s);
    case Delay(_, _, feedback, mix, buffer, pos, _) =>
      var s := DelayProcess(Clamp(feedback, 0.0, 0.95), mix, DelayLine(buffer, pos), a);
      next := e.(buffer := s.buffer, writePos := s.pos);
    case NoiseGate(_, _, _, _, _, gate) =>
      var s := GateProcess(GateCoeffsOf(m, e), gate, a);
      next := e.(gateOpen := s);
  }

  // ----- the chain -----

  /** One more effect of the chain, run on what the ones before it produced. */
  lemma ChainStep(m: Math, effects: seq<Effect>, xs: seq<real>, i: nat,
                  done: seq<Effect>, buffer: seq<real>, next: Effect, out: seq<real>)
    requires i < |effects| && Runnable(effects)
    requires RunChain(m, effects[..i], xs) == (done, buffer)
    requires Process(m, effects[i], buffer) == Processed(next, out)
    ensures RunChain(m, effects[..i + 1], xs) == (done + [next], out)
  {
    assert effects[..i + 1][..i] == effects[..i];
  }

  /** What `process` needs of the chain's effects. */
  predicate Runnable(effects: seq<Effect>)
  {
    forall i :: 0 <= i < |effects| ==> WellFormed(effects[i])
  }

  /** Every effect of the chain, first to last, each fed what the one before wrote. */
  function RunChain(m: Math, effects: seq<Effect>, xs: seq<real>): (r: (seq<Effect>, seq<real>))
    requires Runnable(effects)
    ensures |r.0| == |effects| && |r.1| == |xs|
    ensures Runnable(r.0)
  {
    if effects == [] then ([], xs)
    else
      var before := RunChain(m, effects[..|effects| - 1], xs);
      var last := Process(m, effects[|effects| - 1], before.1);
      (before.0 + [last.effect], last.out)
  }

  /** A chain of disabled effects changes neither the samples nor the effects. */
  lemma {:induction false} DisabledChainBypass(m: Math, effects: seq<Effect>, xs: seq<real>)
    requires forall i :: 0 <= i < |effects| ==> WellFormed(effects[i]) && !effects[i].enabled
    ensures RunChain(m, effects, xs) == (effects, xs)
  {
    if effects != [] {
      DisabledChainBypass(m, effects[..|effects| - 1], xs);
      assert effects[..|effects| - 1] + [effects[|effects| - 1]] == effects;
    }
  }

  /** Appending an effect runs it last, on what the existing chain produced. */
  lemma AddedRunsLast(m: Math, effects: seq<Effect>, e: Effect, xs: seq<real>)
    requires Runnable(effects)
    requires WellFormed(e)
    ensures var before := RunChain(m, effects, xs);
      var last := Process(m, e, before.1);
      RunChain(m, effects + [e], xs) == (before.0 + [last.effect], last.out)
  {
    assert (effects + [e])[..|effects|] == effects;
  }

  /** `EffectChain`. */
  class EffectChain {
    var effects: seq<Effect>
    var enabled: bool

    /** `EffectChain::new`: empty and enabled. */
    constructor ()
      ensures effects == [] && enabled
    {
      effects := [];
      enabled := true;
    }

    /** `add`: at the end. */
    method Add(effect: Effect)
      modifies this
      ensures effects == old(effects) + [effect] && enabled == old(enabled)
    {
      effects := effects + [effect];
    }

    /** `remove`: the effect at a valid index, the rest closing up behind it; None otherwise. */
    method Remove(index: nat) returns (r: Option<Effect>)
      modifies this
      ensures index < |old(effects)| ==>
        r == Some(old(effects)[index]) && effects == old(effects)[..index] + old(effects)[index + 1..]
      ensures index >= |old(effects)| ==> r == None && effects == old(effects)
      ensures enabled == old(enabled)
    {
      if index < |effects| {
        r := Some(effects[index]);
        effects := effects[..index] + effects[index + 1..];
      } else {
        r := None;
      }
    }

    /** `get`. */
    function Get(index: nat): (r: Option<Effect>)
      reads this
      ensures r.Some? <==> index < |effects|
      ensures r.Some? ==> r.value == effects[index]
    {
      if index < |effects| then Some(effects[index]) else None
    }

    /** `len`. */
    function Len(): (n: nat)
      reads this
      ensures n == |effects|
    {
      |effects|
    }

    /** `is_empty`. */
    predicate IsEmpty()
      reads this
      ensures IsEmpty() <==> Len() == 0
    {
      |effects| == 0
    }

    /** `process`: nothing when the chain is disabled; otherwise every effect in insertion order. */
    method Process(m: Math, a: array<real>)
      requires Runnable(effects)
      modifies this, a
      ensures enabled == old(enabled)
      ensures !enabled ==> effects == old(effects) && a[..] == old(a[..])
      ensures enabled ==> (effects, a[..]) == RunChain(m, old(effects), old(a[..]))
    {
      if !enabled {
        return;
      }
      ghost var start := effects;
      ghost var input := a[..];
      var i := 0;
      while i < |effects|
        invariant 0 <= i <= |effects| == |start| && enabled && Runnable(start)
        invariant forall k :: i <= k < |effects| ==> effects[k] == start[k]
        invariant RunChain(m, start[..i], input) == (effects[..i], a[..])
      {
        ghost var buffer := a[..];
        var next := ProcessInPlace(m, effects[i], a);
        ChainStep(m, start, input, i, effects[..i], buffer, next, a[..]);
        effects := effects[i := next];
        assert effects[..i + 1] == effects[..i] + [next];
        i := i + 1;
      }
      assert start[..i] == start;
      assert effects[..i] == effects;
    }

    /** `reset`: every effect reset. */
    method Reset()
      modifies this
      ensures |effects| == |old(effects)| && enabled == old(enabled)
      ensures forall i :: 0 <= i < |effects| ==> effects[i] == ResetEffect(old(effects)[i])
    {
      var i := 0;
      ghost var start := effects;
      while i < |effects|
        invariant 0 <= i <= |effects| == |start| && enabled == old(enabled)
        invariant forall k :: 0 <= k < i ==> effects[k] == ResetEffect(start[k])
        invariant forall k :: i <= k < |effects| ==> effects[k] == start[k]
      {
        effects := effects[i := ResetEffect(effects[i])];
        i := i + 1;
      }
    }

    /** `set_enabled`. */
    method SetEnabled(enabled: bool)
      modifies this
      ensures this.enabled == enabled && effects == old(effects)
      ensures IsEnabled() == enabled
    {
      this.enabled := enabled;
    }

    /** `is_enabled`. */
    predicate IsEnabled()
      reads this
      ensures IsEnabled() == enabled
    {
      enabled
    }
  }
}
