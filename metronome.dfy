/**
 * The metronome (src/audio/metronome.rs): a beat and measure counter driven by the sample
 * position, the click it writes at the start of each beat, and the 24-byte sync message peers
 * exchange. Click samples are f32 values, modelled as reals; the click waveform itself
 * (a sine under an exponential decay) is a parameter.
 */
module Metronome {
  import opened Bytes
  import opened Ints
  import opened Wrappers

  const U64_MOD: int := 0x1_0000_0000_0000_0000

  /** `MetronomeConfig`. */
  datatype MetronomeConfig = MetronomeConfig(
    bpm: u32, beatsPerMeasure: u32, beatValue: u32,
    volume: real, downbeatFreq: real, beatFreq: real)

  /** `MetronomeConfig::default`: 120 bpm in 4/4, half volume, 1000 Hz downbeat and 800 Hz beats. */
  const DEFAULT_CONFIG := MetronomeConfig(120, 4, 4, 0.5, 1000.0, 800.0)

  /** The tempo range `set_bpm` accepts. */
  const MIN_BPM: u32 := 20
  const MAX_BPM: u32 := 300

  /** `MetronomeState`. */
  datatype MetronomeState = MetronomeState(currentBeat: u32, measure: u32, samplePosition: u64, totalSamples: u64)

  /**
   * `(sample_rate * 60) / bpm`: the u32 product wraps, then the quotient is rounded down.
   */
  function SamplesPerBeat(sampleRate: u32, bpm: u32): (r: u32)
    requires bpm > 0
    ensures r * bpm <= AsU32(sampleRate * 60) < (r + 1) * bpm
  {
    AsU32(sampleRate * 60) / bpm
  }

  /** At 48 kHz and the default 120 bpm a beat lasts 24000 samples. */
  lemma DefaultSamplesPerBeat()
    ensures SamplesPerBeat(48000, DEFAULT_CONFIG.bpm) == 24000
  {
  }

  /** `bpm.clamp(20, 300)`. */
  function ClampBpm(bpm: u32): (r: u32)
    ensures MIN_BPM <= r <= MAX_BPM
    ensures MIN_BPM <= bpm <= MAX_BPM ==> r == bpm
    ensures bpm < MIN_BPM ==> r == MIN_BPM
    ensures bpm > MAX_BPM ==> r == MAX_BPM
  {
    if bpm < MIN_BPM then MIN_BPM else if bpm > MAX_BPM then MAX_BPM else bpm
  }

  /** `volume.clamp(0.0, 1.0)`. */
  function ClampVolume(volume: real): (r: real)
    ensures 0.0 <= r <= 1.0
    ensures 0.0 <= volume <= 1.0 ==> r == volume
    ensures volume < 0.0 ==> r == 0.0
    ensures volume > 1.0 ==> r == 1.0
  {
    if volume < 0.0 then 0.0 else if volume > 1.0 then 1.0 else volume
  }

  /** `sample_rate / 20`: a click lasts 50 ms. */
  function ClickDuration(sampleRate: u32): u32
  {
    sampleRate / 20
  }

  // ----- the generator's counters -----

  /** The three counters `generate` carries through its loop. */
  datatype Cursor = Cursor(position: u64, beat: u32, measure: u32)

  /**
   * One sample: the position advances (the u64 wraps); landing on a multiple of the beat
   * length starts the next beat, and passing the last beat of the measure starts the next
   * measure at beat 0 (the u32 counters wrap).
   */
  function Step(c: Cursor, samplesPerBeat: u32, beatsPerMeasure: u32): (r: Cursor)
    requires samplesPerBeat > 0
    ensures c.beat < beatsPerMeasure ==> r.beat < beatsPerMeasure
    ensures r.beat != c.beat || r.measure != c.measure ==> r.position % samplesPerBeat == 0
    ensures r.measure != c.measure ==> r.beat == 0
  {
    var position := AsU64(c.position + 1);
    if position % samplesPerBeat == 0 then
      var beat := WrappingAdd(c.beat, 1);
      if beat >= beatsPerMeasure then Cursor(position, 0, WrappingAdd(c.measure, 1))
      else Cursor(position, beat, c.measure)
    else Cursor(position, c.beat, c.measure)
  }

  /** The counters after `n` samples. */
  function Steps(c: Cursor, n: nat, samplesPerBeat: u32, beatsPerMeasure: u32): (r: Cursor)
    requires n > 0 ==> samplesPerBeat > 0
    ensures c.beat < beatsPerMeasure ==> r.beat < beatsPerMeasure
  {
    if n == 0 then c else Step(Steps(c, n - 1, samplesPerBeat, beatsPerMeasure), samplesPerBeat, beatsPerMeasure)
  }

  /** The quotient by `d` grows by one exactly when `x + 1` is a multiple of `d`. */
  lemma DivStep(x: nat, d: nat)
    requires d > 0
    ensures (x + 1) / d == x / d + (if (x + 1) % d == 0 then 1 else 0)
  {
    var q, r := x / d, x % d;
    assert x == q * d + r && 0 <= r < d;
    if r + 1 == d {
      DivUnique(x + 1, d, q + 1, 0);
    } else {
      DivUnique(x + 1, d, q, r + 1);
    }
  }

  /** The position after `n` samples is the start position plus `n`, modulo 2^64. */
  lemma {:induction false} StepsAdvance(c: Cursor, n: nat, samplesPerBeat: u32, beatsPerMeasure: u32)
    requires samplesPerBeat > 0
    ensures Steps(c, n, samplesPerBeat, beatsPerMeasure).position == AsU64(c.position + n)
  {
    if n > 0 {
      StepsAdvance(c, n - 1, samplesPerBeat, beatsPerMeasure);
      var x := c.position + n - 1;
      assert AsU64(x % U64_MOD + 1) == (x + 1) % U64_MOD by {
        var q, r := x / U64_MOD, x % U64_MOD;
        if r + 1 == U64_MOD {
          DivUnique(x + 1, U64_MOD, q + 1, 0);
        } else {
          DivUnique(x + 1, U64_MOD, q, r + 1);
        }
      }
    }
  }

  /** A beat inside the measure stays inside it, however many samples go by. */
  lemma {:induction false} StepsKeepBeatInMeasure(c: Cursor, n: nat, samplesPerBeat: u32, beatsPerMeasure: u32)
    requires samplesPerBeat > 0 && c.beat < beatsPerMeasure
    ensures Steps(c, n, samplesPerBeat, beatsPerMeasure).beat < beatsPerMeasure
  {
    if n > 0 {
      StepsKeepBeatInMeasure(c, n - 1, samplesPerBeat, beatsPerMeasure);
    }
  }

  /** The beats counted so far, measures included. */
  function BeatsCounted(c: Cursor, beatsPerMeasure: u32): nat
  {
    c.measure * beatsPerMeasure + c.beat
  }

  /** One sample away from the wrap-around counts one beat exactly at a beat boundary. */
  lemma StepCountsBeat(c: Cursor, samplesPerBeat: u32, beatsPerMeasure: u32)
    requires samplesPerBeat > 0 && c.beat < beatsPerMeasure
    requires c.position + 1 < U64_MOD && c.measure + 1 < U32_MOD
    ensures var d := Step(c, samplesPerBeat, beatsPerMeasure);
      d.position == c.position + 1 && d.beat < beatsPerMeasure && d.measure <= c.measure + 1
      && BeatsCounted(d, beatsPerMeasure)
         == BeatsCounted(c, beatsPerMeasure) + (if (c.position + 1) % samplesPerBeat == 0 then 1 else 0)
  {
    var m := c.measure;
    if (c.position + 1) % samplesPerBeat == 0 && c.beat + 1 >= beatsPerMeasure {
      assert (m + 1) * beatsPerMeasure == m * beatsPerMeasure + beatsPerMeasure;
    }
  }

  /**
   * Away from the counters' wrap-around, `n` samples advance the beat count by the number of
   * beat boundaries crossed, one per multiple of the beat length the position reaches.
   */
  lemma {:induction false} StepsCountBeats(c: Cursor, n: nat, samplesPerBeat: u32, beatsPerMeasure: u32)
    requires samplesPerBeat > 0 && c.beat < beatsPerMeasure
    requires c.position + n < U64_MOD && c.measure + n < U32_MOD
    ensures var d := Steps(c, n, samplesPerBeat, beatsPerMeasure);
      d.position == c.position + n && d.beat < beatsPerMeasure && d.measure <= c.measure + n
      && BeatsCounted(d, beatsPerMeasure) == BeatsCounted(c, beatsPerMeasure)
           + (c.position + n) / samplesPerBeat - c.position / samplesPerBeat
  {
    if n > 0 {
      StepsCountBeats(c, n - 1, samplesPerBeat, beatsPerMeasure);
      var d := Steps(c, n - 1, samplesPerBeat, beatsPerMeasure);
      StepCountsBeat(d, samplesPerBeat, beatsPerMeasure);
      DivStep(c.position + n - 1, samplesPerBeat);
    }
  }

  // ----- the click -----

  /** What the sample loop reads from the metronome. */
  datatype Timing = Timing(samplesPerBeat: u32, beatsPerMeasure: u32, sampleRate: u32,
                           downbeatFreq: real, beatFreq: real, volume: real)

  /**
   * The sample written at the counters `c`: within the first 50 ms of a beat, the click
   * waveform at the beat's frequency (the downbeat's on beat 0), at the time since the beat
   * started, times the volume; silence for the rest of the beat.
   */
  function ClickAt(c: Cursor, t: Timing, click: (real, real) -> real): (r: real)
    requires t.samplesPerBeat > 0
    ensures c.position % t.samplesPerBeat >= ClickDuration(t.sampleRate) ==> r == 0.0
  {
    var posInBeat := c.position % t.samplesPerBeat;
    if posInBeat < ClickDuration(t.sampleRate) then
      var freq := if c.beat == 0 then t.downbeatFreq else t.beatFreq;
      click(freq, posInBeat as real / t.sampleRate as real) * t.volume
    else 0.0
  }

  /** A sound only at the start of a beat, and the downbeat's pitch exactly on beat 0. */
  lemma ClickShape(c: Cursor, t: Timing, click: (real, real) -> real)
    requires t.samplesPerBeat > 0
    ensures ClickAt(c, t, click) != 0.0 ==> c.position % t.samplesPerBeat < t.sampleRate / 20
    ensures c.position % t.samplesPerBeat < t.sampleRate / 20 ==>
      ClickAt(c, t, click) == click(if c.beat == 0 then t.downbeatFreq else t.beatFreq,
                                    (c.position % t.samplesPerBeat) as real / t.sampleRate as real) * t.volume
  {
  }

  /** `n` zero samples. */
  function Silence(n: nat): (r: seq<real>)
    ensures |r| == n && forall i :: 0 <= i < n ==> r[i] == 0.0
  {
    seq(n, _ => 0.0)
  }

  /** The samples written over `n` steps from the counters `c`. */
  function Clicks(c: Cursor, n: nat, t: Timing, click: (real, real) -> real): (r: seq<real>)
    requires n > 0 ==> t.samplesPerBeat > 0
    ensures |r| == n
  {
    if n == 0 then []
    else Clicks(c, n - 1, t, click) + [ClickAt(Steps(c, n - 1, t.samplesPerBeat, t.beatsPerMeasure), t, click)]
  }

  /** Sample `i` of the output is the click at the counters after `i` steps. */
  lemma {:induction false} ClicksAt(c: Cursor, n: nat, t: Timing, click: (real, real) -> real, i: nat)
    requires t.samplesPerBeat > 0 && i < n
    ensures Clicks(c, n, t, click)[i] == ClickAt(Steps(c, i, t.samplesPerBeat, t.beatsPerMeasure), t, click)
  {
    if i < n - 1 {
      ClicksAt(c, n - 1, t, click, i);
    }
  }

  /**
   * The sample loop of `generate`: one sample per step, written from the counters before the
   * step, then the position advanced and a beat boundary handled.
   */
  method RunClicks(start: Cursor, n: nat, t: Timing, click: (real, real) -> real)
    returns (output: seq<real>, end: Cursor)
    requires n > 0 ==> t.samplesPerBeat > 0
    ensures end == Steps(start, n, t.samplesPerBeat, t.beatsPerMeasure)
    ensures output == Clicks(start, n, t, click)
  {
    output := [];
    var pos: u64, beat: u32, measure: u32 := start.position, start.beat, start.measure;
    var clickDuration := ClickDuration(t.sampleRate);
    var i := 0;
    while i < n
      invariant 0 <= i <= n
      invariant Cursor(pos, beat, measure) == Steps(start, i, t.samplesPerBeat, t.beatsPerMeasure)
      invariant output == Clicks(start, i, t, click)
    {
      ghost var before := Cursor(pos, beat, measure);
      var posInBeat := pos % t.samplesPerBeat;
      var sample := 0.0;
      if posInBeat < clickDuration {
        var freq := if beat == 0 then t.downbeatFreq else t.beatFreq;
        sample := click(freq, posInBeat as real / t.sampleRate as real) * t.volume;
      }
      assert sample == ClickAt(before, t, click);
      output := output + [sample];
      pos := AsU64(pos + 1);
      if pos % t.samplesPerBeat == 0 {
        beat := WrappingAdd(beat, 1);
        if beat >= t.beatsPerMeasure {
          beat := 0;
          measure := WrappingAdd(measure, 1);
        }
      }
      assert Cursor(pos, beat, measure) == Step(before, t.samplesPerBeat, t.beatsPerMeasure);
      assert Steps(start, i + 1, t.samplesPerBeat, t.beatsPerMeasure) == Step(before, t.samplesPerBeat, t.beatsPerMeasure);
      i := i + 1;
    }
    end := Cursor(pos, beat, measure);
  }

  /** `Metronome`. */
  class Metronome {
    var config: MetronomeConfig
    const sampleRate: u32
    var running: bool
    var currentBeat: u32
    var currentMeasure: u32
    var samplePosition: u64
    var totalSamples: u64
    var samplesPerBeat: u32
    const clickDurationSamples: u32

    /** The tempo is positive and the derived beat and click lengths match it and the rate. */
    predicate Valid()
      reads this
    {
      config.bpm > 0
      && samplesPerBeat == SamplesPerBeat(sampleRate, config.bpm)
      && clickDurationSamples == ClickDuration(sampleRate)
    }

    /** `Metronome::new`: stopped, all counters zero; the tempo is used as given, so it must not be zero. */
    constructor New(config: MetronomeConfig, sampleRate: u32)
      requires config.bpm > 0
      ensures Valid()
      ensures this.config == config && this.sampleRate == sampleRate && !running
      ensures State() == MetronomeState(0, 0, 0, 0)
    {
      this.config := config;
      this.sampleRate := sampleRate;
      running := false;
      currentBeat := 0;
      currentMeasure := 0;
      samplePosition := 0;
      totalSamples := 0;
      samplesPerBeat := SamplesPerBeat(sampleRate, config.bpm);
      clickDurationSamples := ClickDuration(sampleRate);
    }

    /** `state`: the four counters. */
    function State(): MetronomeState
      reads this
    {
      MetronomeState(currentBeat, currentMeasure, samplePosition, totalSamples)
    }

    /** The counters the sample loop advances. */
    function Counters(): Cursor
      reads this
    {
      Cursor(samplePosition, currentBeat, currentMeasure)
    }

    /** The settings the sample loop reads. */
    function Settings(): Timing
      reads this
    {
      Timing(samplesPerBeat, config.beatsPerMeasure, sampleRate,
                       config.downbeatFreq, config.beatFreq, config.volume)
    }

    /** `start`: running, from the beginning. */
    method Start()
      modifies this
      ensures running && State() == MetronomeState(0, 0, 0, 0)
      ensures config == old(config) && samplesPerBeat == old(samplesPerBeat)
    {
      running := true;
      Reset();
    }

    /** `stop`: the counters stay where they are. */
    method Stop()
      modifies this
      ensures !running && State() == old(State())
      ensures config == old(config) && samplesPerBeat == old(samplesPerBeat)
    {
      running := false;
    }

    /** `reset`: all four counters back to zero. */
    method Reset()
      modifies this
      ensures State() == MetronomeState(0, 0, 0, 0)
      ensures running == old(running) && config == old(config) && samplesPerBeat == old(samplesPerBeat)
    {
      currentBeat := 0;
      currentMeasure := 0;
      samplePosition := 0;
      totalSamples := 0;
    }

    /** `is_running`. */
    function IsRunning(): (r: bool)
      reads this
      ensures r == running
    {
      running
    }

    /** `set_bpm`: the tempo clamped into [20, 300], and the beat length recomputed from it. */
    method SetBpm(bpm: u32)
      requires Valid()
      modifies this
      ensures Valid()
      ensures config == old(config).(bpm := ClampBpm(bpm))
      ensures samplesPerBeat == SamplesPerBeat(sampleRate, ClampBpm(bpm))
      ensures running == old(running) && State() == old(State())
    {
      config := config.(bpm := ClampBpm(bpm));
      samplesPerBeat := SamplesPerBeat(sampleRate, config.bpm);
    }

    /** `bpm`. */
    function Bpm(): (r: u32)
      reads this
      ensures r == config.bpm
    {
      config.bpm
    }

    /** `set_volume`: the volume clamped into [0, 1]. */
    method SetVolume(volume: real)
      requires Valid()
      modifies this
      ensures Valid()
      ensures config == old(config).(volume := ClampVolume(volume))
      ensures samplesPerBeat == old(samplesPerBeat) && running == old(running) && State() == old(State())
    {
      config := config.(volume := ClampVolume(volume));
    }

    /** `sync_to`: the four counters taken over from a peer, exactly. */
    method SyncTo(state: MetronomeState)
      modifies this
      ensures State() == state
      ensures running == old(running) && config == old(config) && samplesPerBeat == old(samplesPerBeat)
    {
      currentBeat := state.currentBeat;
      currentMeasure := state.measure;
      samplePosition := state.samplePosition;
      totalSamples := state.totalSamples;
    }

    /**
     * `generate`: when stopped, `n` zeros and nothing changes. When running, one click sample
     * per counter position, the counters moved on by `n` samples, and the running total
     * increased by `n` (wrapping). A zero beat length would make the loop divide by zero.
     */
    method Generate(n: nat, click: (real, real) -> real) returns (output: seq<real>)
      requires Valid()
      requires running && n > 0 ==> samplesPerBeat > 0
      modifies this
      ensures Valid()
      ensures running == old(running) && config == old(config) && samplesPerBeat == old(samplesPerBeat)
      ensures !old(running) ==> output == Silence(n) && State() == old(State())
      ensures old(running) ==>
        Counters() == Steps(old(Counters()), n, samplesPerBeat, config.beatsPerMeasure)
        && totalSamples == AsU64(old(totalSamples) + n)
        && output == Clicks(old(Counters()), n, Settings(), click)
    {
      if !running {
        return Silence(n);
      }
      var end;
      output, end := RunClicks(Counters(), n, Settings(), click);
      samplePosition := end.position;
      currentBeat := end.beat;
      currentMeasure := end.measure;
      totalSamples := AsU64(totalSamples + n);
    }
  }

  // ----- MetronomeSync -----

  /** The message size: four u32 fields and one u64. */
  const SYNC_SIZE: nat := 24

  /** `MetronomeSync`. */
  datatype MetronomeSync = MetronomeSync(bpm: u32, beatsPerMeasure: u32, currentBeat: u32, measure: u32, samplePosition: u64)

  /** `MetronomeSync::from_metronome`: the tempo, the metre and the position of a metronome. */
  function FromMetronome(m: Metronome): (s: MetronomeSync)
    reads m
    ensures s.bpm == m.config.bpm && s.beatsPerMeasure == m.config.beatsPerMeasure
    ensures s.currentBeat == m.State().currentBeat && s.measure == m.State().measure
    ensures s.samplePosition == m.State().samplePosition
  {
    var state := m.State();
    MetronomeSync(m.config.bpm, m.config.beatsPerMeasure, state.currentBeat, state.measure, state.samplePosition)
  }

  /** `MetronomeSync::to_bytes`: the five fields, big-endian, in declaration order. */
  function ToBytes(s: MetronomeSync): (r: bytes)
    ensures |r| == SYNC_SIZE
    ensures r[0..4] == U32BE(s.bpm) && r[4..8] == U32BE(s.beatsPerMeasure)
    ensures r[8..12] == U32BE(s.currentBeat) && r[12..16] == U32BE(s.measure)
    ensures r[16..24] == U64BE(s.samplePosition)
  {
    var head := U32BE(s.bpm) + U32BE(s.beatsPerMeasure) + U32BE(s.currentBeat) + U32BE(s.measure);
    assert head[0..4] == U32BE(s.bpm) && head[4..8] == U32BE(s.beatsPerMeasure);
    assert head[8..12] == U32BE(s.currentBeat) && head[12..16] == U32BE(s.measure);
    var r := head + U64BE(s.samplePosition);
    assert r[0..16] == head && r[16..24] == U64BE(s.samplePosition);
    r
  }

  /** `MetronomeSync::from_bytes`: None under 24 bytes; otherwise the fields from the first 24. */
  function FromBytes(data: bytes): (r: Option<MetronomeSync>)
    ensures r.None? <==> |data| < SYNC_SIZE
  {
    if |data| < SYNC_SIZE then None
    else Some(MetronomeSync(ReadU32BE(data, 0), ReadU32BE(data, 4), ReadU32BE(data, 8),
                            ReadU32BE(data, 12), ReadU64BE(data, 16)))
  }

  /** A sync message survives the wire unchanged. */
  lemma SyncRoundTrip(s: MetronomeSync)
    ensures FromBytes(ToBytes(s)) == Some(s)
  {
    var b := ToBytes(s);
    U32BEAt(b, 0, s.bpm);
    U32BEAt(b, 4, s.beatsPerMeasure);
    U32BEAt(b, 8, s.currentBeat);
    U32BEAt(b, 12, s.measure);
    U64BEAt(b, 16, s.samplePosition);
  }

  /** Reading a message and writing it back reproduces its first 24 bytes; the rest is ignored. */
  lemma SyncFromBytesPrefix(data: bytes)
    requires |data| >= SYNC_SIZE
    ensures ToBytes(FromBytes(data).value) == data[..SYNC_SIZE]
    ensures forall tail: bytes :: FromBytes(data[..SYNC_SIZE] + tail) == FromBytes(data)
  {
    U32BERead(data, 0);
    U32BERead(data, 4);
    U32BERead(data, 8);
    U32BERead(data, 12);
    U64BERead(data, 16);
    var s := FromBytes(data).value;
    assert ToBytes(s) == data[0..4] + data[4..8] + data[8..12] + data[12..16] + data[16..24];
    assert data[..SYNC_SIZE] == data[0..4] + data[4..8] + data[8..12] + data[12..16] + data[16..24];
    forall tail: bytes
      ensures FromBytes(data[..SYNC_SIZE] + tail) == FromBytes(data)
    {
      var d := data[..SYNC_SIZE] + tail;
      assert d[..SYNC_SIZE] == data[..SYNC_SIZE];
      FromBytesReadsPrefix(d, data);
    }
  }

  /** Only the first 24 bytes decide what `from_bytes` reads. */
  lemma FromBytesReadsPrefix(d: bytes, e: bytes)
    requires |d| >= SYNC_SIZE && |e| >= SYNC_SIZE && d[..SYNC_SIZE] == e[..SYNC_SIZE]
    ensures FromBytes(d) == FromBytes(e)
  {
    forall i | 0 <= i < SYNC_SIZE
      ensures d[i] == e[i]
    {
      assert d[i] == d[..SYNC_SIZE][i];
    }
  }
}
