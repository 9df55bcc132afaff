/**
 * Recording to WAV (src/audio/recording.rs): the 44-byte RIFF/WAVE header, the conversion of
 * f32 samples to 16-, 24- or 32-bit little-endian frames, and the recorder's state flags and
 * counters. The file is the sequence of bytes written to it; whether creating, flushing or
 * rewriting it succeeds is a parameter. Samples are f32 values, modelled as reals, and the
 * f32 bit pattern written at 32 bits is a parameter.
 */
module Recording {
  import opened Bytes
  import opened Ints
  import opened Wrappers
  import Text

  /** `AudioError`. */
  datatype AudioError =
    | DeviceNotFound(message: string)
    | DeviceOpenFailed(message: string)
    | UnsupportedConfig(message: string)
    | StreamError(message: string)
    | BufferOverflow
    | BufferUnderrun
    | RecordingError(message: string)
    | PluginError(message: string)

  const HEADER_SIZE: nat := 44

  // ----- the header -----

  /** The format tag: 3 (IEEE float) for 32-bit samples, 1 (integer PCM) otherwise. */
  function FormatTag(bits: u16): (tag: u16)
    ensures tag == 3 <==> bits == 32
    ensures tag != 3 ==> tag == 1
  {
    if bits == 32 then 3 else 1
  }

  /** `sample_rate * channels as u32 * bits_per_sample as u32 / 8`, both products wrapping. */
  function ByteRate(sampleRate: u32, channels: u16, bits: u16): (r: u32)
    ensures sampleRate * channels * bits < 0x1_0000_0000 ==> r * 8 <= sampleRate * channels * bits < r * 8 + 8
  {
    AsU32(AsU32(sampleRate * channels) * bits) / 8
  }

  /** `channels * bits_per_sample / 8`, the u16 product wrapping. */
  function BlockAlign(channels: u16, bits: u16): (r: u16)
    ensures channels * bits < 0x1_0000 ==> r * 8 <= channels * bits < r * 8 + 8
  {
    AsU16(channels * bits) / 8
  }

  /** The RIFF chunk header: the tag, the size of the rest of the file, the form type. */
  function RiffChunk(dataSize: u32): bytes
  {
    Ascii("RIFF") + U32LE(WrappingAdd(36, dataSize)) + Ascii("WAVE")
  }

  /** The `fmt ` subchunk: its 16-byte body describes the sample layout. */
  function FmtChunk(sampleRate: u32, channels: u16, bits: u16): bytes
  {
    Ascii("fmt ") + U32LE(16) + U16LE(FormatTag(bits)) + U16LE(channels)
      + U32LE(sampleRate) + U32LE(ByteRate(sampleRate, channels, bits))
      + U16LE(BlockAlign(channels, bits)) + U16LE(bits)
  }

  /** The `data` subchunk header: the tag and the size of the sample data. */
  function DataChunk(dataSize: u32): bytes
  {
    Ascii("data") + U32LE(dataSize)
  }

  /** `write_wav_header`: the three chunk headers, 44 bytes in all. */
  function WavHeader(sampleRate: u32, channels: u16, bits: u16, dataSize: u32): (h: bytes)
    ensures |h| == HEADER_SIZE
  {
    RiffChunk(dataSize) + FmtChunk(sampleRate, channels, bits) + DataChunk(dataSize)
  }

  lemma RiffFields(dataSize: u32)
    ensures var r := RiffChunk(dataSize);
      |r| == 12 && r[0..4] == Ascii("RIFF") && ReadU32LE(r, 4) == WrappingAdd(36, dataSize)
      && r[8..12] == Ascii("WAVE")
  {
    var r := RiffChunk(dataSize);
    assert r[4..8] == U32LE(WrappingAdd(36, dataSize));
    U32LEAt(r, 4, WrappingAdd(36, dataSize));
  }

  lemma FmtFields(sampleRate: u32, channels: u16, bits: u16)
    ensures var f := FmtChunk(sampleRate, channels, bits);
      |f| == 24 && f[0..4] == Ascii("fmt ")
      && ReadU32LE(f, 4) == 16 && ReadU16LE(f, 8) == FormatTag(bits) && ReadU16LE(f, 10) == channels
      && ReadU32LE(f, 12) == sampleRate && ReadU32LE(f, 16) == ByteRate(sampleRate, channels, bits)
      && ReadU16LE(f, 20) == BlockAlign(channels, bits) && ReadU16LE(f, 22) == bits
  {
    var f := FmtChunk(sampleRate, channels, bits);
    assert f[4..8] == U32LE(16);
    assert f[8..10] == U16LE(FormatTag(bits));
    assert f[10..12] == U16LE(channels);
    assert f[12..16] == U32LE(sampleRate);
    assert f[16..20] == U32LE(ByteRate(sampleRate, channels, bits));
    assert f[20..22] == U16LE(BlockAlign(channels, bits));
    assert f[22..24] == U16LE(bits);
    U32LEAt(f, 4, 16);
    U16LEAt(f, 8, FormatTag(bits));
    U16LEAt(f, 10, channels);
    U32LEAt(f, 12, sampleRate);
    U32LEAt(f, 16, ByteRate(sampleRate, channels, bits));
    U16LEAt(f, 20, BlockAlign(channels, bits));
    U16LEAt(f, 22, bits);
  }

  /** A value read inside a piece of a concatenation is the value read in the whole. */
  lemma ReadInside(a: bytes, m: bytes, c: bytes)
    ensures forall i: nat :: i + 2 <= |m| ==> ReadU16LE(a + m + c, |a| + i) == ReadU16LE(m, i)
    ensures forall i: nat :: i + 4 <= |m| ==> ReadU32LE(a + m + c, |a| + i) == ReadU32LE(m, i)
    ensures (a + m + c)[|a|..|a| + |m|] == m
  {
  }

  /**
   * The header read back field by field: "RIFF", 36 plus the data size (wrapping), "WAVE",
   * "fmt ", 16, the format tag, channels, rate, byte rate, block alignment and bits per
   * sample, "data", and the data size.
   */
  lemma HeaderFields(sampleRate: u32, channels: u16, bits: u16, dataSize: u32)
    ensures var h := WavHeader(sampleRate, channels, bits, dataSize);
      h[0..4] == Ascii("RIFF") && ReadU32LE(h, 4) == WrappingAdd(36, dataSize) && h[8..12] == Ascii("WAVE")
      && h[12..16] == Ascii("fmt ") && ReadU32LE(h, 16) == 16
      && ReadU16LE(h, 20) == FormatTag(bits) && ReadU16LE(h, 22) == channels
      && ReadU32LE(h, 24) == sampleRate && ReadU32LE(h, 28) == ByteRate(sampleRate, channels, bits)
      && ReadU16LE(h, 32) == BlockAlign(channels, bits) && ReadU16LE(h, 34) == bits
      && h[36..40] == Ascii("data") && ReadU32LE(h, 40) == dataSize
  {
    var r, f, d := RiffChunk(dataSize), FmtChunk(sampleRate, channels, bits), DataChunk(dataSize);
    RiffFields(dataSize);
    FmtFields(sampleRate, channels, bits);
    assert d[4..8] == U32LE(dataSize);
    U32LEAt(d, 4, dataSize);
    ReadInside([], r, f + d);
    assert r + f + d == [] + r + (f + d);
    ReadInside(r, f, d);
    ReadInside(r + f, d, []);
    assert r + f + d == r + f + d + [];
    var h := r + f + d;
    assert h[0..4] == r[0..4];
    assert h[8..12] == r[8..12];
    assert h[12..16] == f[0..4];
    assert h[36..40] == d[0..4];
  }

  /** The header of the unit test: 48 kHz stereo 16-bit with 1000 data bytes. */
  lemma HeaderExample()
    ensures var h := WavHeader(48000, 2, 16, 1000);
      ReadU32LE(h, 4) == 1036 && ReadU16LE(h, 20) == 1
      && ReadU32LE(h, 28) == 192000 && ReadU16LE(h, 32) == 4
  {
    HeaderFields(48000, 2, 16, 1000);
  }

  // ----- samples -----

  /** `clamp(-1.0, 1.0)`. */
  function ClampUnit(x: real): (r: real)
    ensures -1.0 <= r <= 1.0
    ensures -1.0 <= x <= 1.0 ==> r == x
  {
    if x < -1.0 then -1.0 else if x > 1.0 then 1.0 else x
  }

  /** `as` from a float to an integer: rounds toward zero. */
  function Trunc(x: real): (n: int)
    ensures x >= 0.0 ==> n as real <= x < n as real + 1.0
    ensures x < 0.0 ==> n as real - 1.0 < x <= n as real
  {
    if x >= 0.0 then x.Floor else -((-x).Floor)
  }

  /** A clamped sample scaled by `full` rounds to an integer within [-full, full]. */
  lemma TruncScaled(x: real, full: nat)
    ensures -(full as int) <= Trunc(ClampUnit(x) * full as real) <= full
  {
    var y, f := ClampUnit(x), full as real;
    assert f - y * f == (1.0 - y) * f && f + y * f == (1.0 + y) * f;
    MulNonneg(1.0 - y, f);
    MulNonneg(1.0 + y, f);
  }

  /** Two's complement in 16 and 32 bits. */
  function Twos16(v: int): u16
    requires -0x8000 <= v < 0x8000
  {
    if v < 0 then v + 0x1_0000 else v
  }

  function Twos32(v: int): u32
    requires -0x8000_0000 <= v < 0x8000_0000
  {
    if v < 0 then v + U32_MOD else v
  }

  /** The 16-bit value of a sample, `(s.clamp(-1.0, 1.0) * 32767.0) as i16`. */
  function Level16(x: real): (v: int)
    ensures -32767 <= v <= 32767
  {
    TruncScaled(x, 32767);
    Trunc(ClampUnit(x) * 32767.0)
  }

  /** The 24-bit value of a sample, `(s.clamp(-1.0, 1.0) * 8388607.0) as i32`. */
  function Level24(x: real): (v: int)
    ensures -8388607 <= v <= 8388607
  {
    TruncScaled(x, 8388607);
    Trunc(ClampUnit(x) * 8388607.0)
  }

  /** The bit depths `write_samples` can write. */
  predicate Supported(bits: u16)
  {
    bits == 16 || bits == 24 || bits == 32
  }

  /** The bytes one sample takes at each supported depth. */
  function BytesPerSample(bits: u16): (w: nat)
    ensures Supported(bits) ==> w == bits / 8
    ensures !Supported(bits) ==> w == 0
  {
    if bits == 16 then 2 else if bits == 24 then 3 else if bits == 32 then 4 else 0
  }

  /**
   * One sample as written: the 16-bit level little-endian, the low three bytes of the
   * 24-bit level, or the f32's own four bytes.
   */
  function EncodeSample(x: real, bits: u16, f32Bits: real -> u32): (b: bytes)
    requires Supported(bits)
    ensures |b| == BytesPerSample(bits)
  {
    if bits == 16 then U16LE(Twos16(Level16(x)))
    else if bits == 24 then U32LE(Twos32(Level24(x)))[0..3]
    else U32LE(f32Bits(x))
  }

  /** A 16-bit little-endian signed value. */
  function ReadI16LE(b: bytes, i: nat): int
    requires i + 2 <= |b|
  {
    var u := ReadU16LE(b, i);
    if u >= 0x8000 then u - 0x1_0000 else u
  }

  /** A 24-bit little-endian signed value. */
  function ReadI24LE(b: bytes, i: nat): int
    requires i + 3 <= |b|
  {
    var u := b[i] + (b[i + 1] as int) * 0x100 + (b[i + 2] as int) * 0x1_0000;
    if u >= 0x80_0000 then u - 0x100_0000 else u
  }

  /** What a 16-bit sample's two bytes read back as: its level. */
  lemma Sample16Reads(x: real, f32Bits: real -> u32)
    ensures ReadI16LE(EncodeSample(x, 16, f32Bits), 0) == Level16(x)
  {
    U16LEAt(EncodeSample(x, 16, f32Bits), 0, Twos16(Level16(x)));
  }

  /** What a 24-bit sample's three bytes read back as: its level. */
  lemma Sample24Reads(x: real, f32Bits: real -> u32)
    ensures ReadI24LE(EncodeSample(x, 24, f32Bits), 0) == Level24(x)
  {
    var v := Level24(x);
    if v >= 0 {
      Low24ReadsNonneg(v);
    } else {
      Low24ReadsNeg(v);
    }
  }

  /** The low three bytes of a non-negative 24-bit level read back as that level. */
  lemma Low24ReadsNonneg(v: int)
    requires 0 <= v < 0x80_0000
    ensures ReadI24LE(U32LE(Twos32(v))[0..3], 0) == v
  {
    var lo, hi := v % 0x1_0000, v / 0x1_0000;
    assert hi < 0x100;
    var b := U32LE(Twos32(v))[0..3];
    assert b == [lo % 0x100, lo / 0x100, hi];
  }

  /** The low three bytes of a negative 24-bit level, in two's complement, read back as that level. */
  lemma Low24ReadsNeg(v: int)
    requires -0x80_0000 <= v < 0
    ensures ReadI24LE(U32LE(Twos32(v))[0..3], 0) == v
  {
    var t := v + U32_MOD;
    var lo, hi := t % 0x1_0000, t / 0x1_0000;
    var b := U32LE(Twos32(v))[0..3];
    assert b == [lo % 0x100, lo / 0x100, hi % 0x100];
    assert hi == 0xFFFF - (-v - 1) / 0x1_0000 by {
      DivUnique(t, 0x1_0000, 0xFFFF - (-v - 1) / 0x1_0000, lo);
    }
    assert hi % 0x100 == 0xFF - (-v - 1) / 0x1_0000;
    assert b[0] + (b[1] as int) * 0x100 + (b[2] as int) * 0x1_0000 == v + 0x100_0000;
  }

  /** The samples written one after another. */
  function EncodeSamples(xs: seq<real>, bits: u16, f32Bits: real -> u32): (b: bytes)
    requires Supported(bits)
    ensures |b| == |xs| * BytesPerSample(bits)
  {
    if xs == [] then []
    else EncodeSamples(xs[..|xs| - 1], bits, f32Bits) + EncodeSample(xs[|xs| - 1], bits, f32Bits)
  }

  /** Sample `k`'s bytes sit at `k` times the sample width. */
  lemma {:induction false} EncodeSamplesAt(xs: seq<real>, bits: u16, f32Bits: real -> u32, k: nat)
    requires Supported(bits) && k < |xs|
    ensures var w := BytesPerSample(bits);
      EncodeSamples(xs, bits, f32Bits)[k * w..(k + 1) * w] == EncodeSample(xs[k], bits, f32Bits)
  {
    var w := BytesPerSample(bits);
    var init := xs[..|xs| - 1];
    var prefix := EncodeSamples(init, bits, f32Bits);
    var last := EncodeSample(xs[|xs| - 1], bits, f32Bits);
    assert EncodeSamples(xs, bits, f32Bits) == prefix + last;
    var lo, hi := k * w, (k + 1) * w;
    MulSucc(k, w);
    if k < |xs| - 1 {
      EncodeSamplesAt(init, bits, f32Bits, k);
      MulLe(k + 1, |xs| - 1, w);
      SliceOfAppend(prefix, last, lo, hi);
      assert init[k] == xs[k];
    } else {
      SliceOfAppend(prefix, last, lo, hi);
    }
  }

  /** A slice of `a + b` inside `a` is a slice of `a`; the slice spanning exactly `b` is `b`. */
  lemma SliceOfAppend(a: bytes, b: bytes, lo: nat, hi: nat)
    requires lo <= hi <= |a| + |b|
    ensures hi <= |a| ==> (a + b)[lo..hi] == a[lo..hi]
    ensures lo == |a| && hi == |a| + |b| ==> (a + b)[lo..hi] == b
  {
  }

  lemma MulSucc(k: nat, w: nat)
    ensures (k + 1) * w == k * w + w
  {
  }

  lemma MulLe(a: nat, b: nat, w: nat)
    requires a <= b
    ensures a * w <= b * w
  {
    assert b * w == a * w + (b - a) * w;
  }

  /** The conversion loop of `write_samples` for a supported depth. */
  method EncodeAll(samples: seq<real>, bits: u16, f32Bits: real -> u32) returns (out: bytes)
    requires Supported(bits)
    ensures out == EncodeSamples(samples, bits, f32Bits)
  {
    out := [];
    for i := 0 to |samples|
      invariant out == EncodeSamples(samples[..i], bits, f32Bits)
    {
      out := out + EncodeSample(samples[i], bits, f32Bits);
      assert samples[..i + 1][..i] == samples[..i];
    }
    assert samples[..|samples|] == samples;
  }

  // ----- the recorder -----

  /** `RecordingInfo`, without the duration in seconds (an f64 quotient). */
  datatype RecordingInfo = RecordingInfo(path: string, samples: u64, fileSize: u64)

  /** The file after `stop`: the header rewritten with the data size, the samples after it untouched. */
  function Finalise(file: bytes, sampleRate: u32, channels: u16, bits: u16, samples: u64): (r: bytes)
    requires |file| >= HEADER_SIZE
    ensures |r| == |file| && r[HEADER_SIZE..] == file[HEADER_SIZE..]
    ensures r[..HEADER_SIZE] == WavHeader(sampleRate, channels, bits, AsU32(AsU64(samples * (bits / 8))))
  {
    WavHeader(sampleRate, channels, bits, AsU32(AsU64(samples * (bits / 8)))) + file[HEADER_SIZE..]
  }

  /**
   * A file of `n` samples at a supported depth, finalised while its data fits a u32 size and
   * the count has not wrapped, ends up a consistent WAV file: the data size field is the number
   * of bytes after the header and the RIFF size is the file's length less eight.
   */
  lemma FinaliseMatchesData(sampleRate: u32, channels: u16, bits: u16, body: bytes, n: nat)
    requires Supported(bits) && |body| == n * BytesPerSample(bits)
    requires n < 0x1_0000_0000_0000_0000 && |body| + 36 < U32_MOD
    ensures var f := Finalise(WavHeader(sampleRate, channels, bits, 0) + body, sampleRate, channels, bits, n);
      |f| == HEADER_SIZE + |body| && f[HEADER_SIZE..] == body
      && ReadU32LE(f, 40) == |body| && ReadU32LE(f, 4) == |f| - 8
  {
    var file := WavHeader(sampleRate, channels, bits, 0) + body;
    assert file[HEADER_SIZE..] == body;
    var h := WavHeader(sampleRate, channels, bits, |body|);
    assert AsU32(AsU64(n * (bits / 8))) == |body|;
    HeaderFields(sampleRate, channels, bits, |body|);
    var f := h + body;
    assert f[..HEADER_SIZE] == h;
    assert ReadU32LE(f, 40) == ReadU32LE(h, 40);
    assert ReadU32LE(f, 4) == ReadU32LE(h, 4);
  }

  /** `Recorder`. */
  class Recorder {
    /** Whether the recorder holds an open writer. */
    var writerOpen: bool
    /** The bytes of the file being written. */
    var file: bytes
    const sampleRate: u32
    const channels: u16
    const bitsPerSample: u16
    var samplesWritten: u64
    /** The samples counted since `start`, without the u64 wrap-around. */
    ghost var samplesCounted: nat
    var recording: bool
    var filePath: Option<string>

    /**
     * An open file is the header written at the start followed by one frame of
     * `BytesPerSample` bytes per counted sample, and the counter is that count as a u64.
     */
    ghost predicate Valid()
      reads this
    {
      writerOpen ==>
        filePath.Some?
        && |file| == HEADER_SIZE + samplesCounted * BytesPerSample(bitsPerSample)
        && file[..HEADER_SIZE] == WavHeader(sampleRate, channels, bitsPerSample, 0)
        && samplesWritten == AsU64(samplesCounted)
    }

    /** `Recorder::new`: not recording, no file, nothing written. */
    constructor New(sampleRate: u32, channels: u16, bitsPerSample: u16)
      ensures Valid()
      ensures this.sampleRate == sampleRate && this.channels == channels && this.bitsPerSample == bitsPerSample
      ensures !recording && !writerOpen && samplesWritten == 0 && filePath == None
    {
      this.sampleRate := sampleRate;
      this.channels := channels;
      this.bitsPerSample := bitsPerSample;
      writerOpen := false;
      file := [];
      samplesWritten := 0;
      samplesCounted := 0;
      recording := false;
      filePath := None;
    }

    /**
     * `start`: refused while recording; otherwise, if the file can be created (`create`) and
     * the placeholder header written (`header`), it holds a header with a zero data size, and
     * recording starts from zero samples. A failed create or header write leaves the recorder
     * as it was.
     */
    method Start(path: string, create: Result<Unit, string>, header: Result<Unit, string>) returns (r: Result<Unit, AudioError>)
      requires Valid()
      modifies this
      ensures Valid()
      ensures old(recording) ==> r == Err(RecordingError("Already recording")) && unchanged(this)
      ensures !old(recording) && create.Err? ==>
        r == Err(RecordingError("Failed to create file: " + create.error)) && unchanged(this)
      ensures !old(recording) && create.Ok? && header.Err? ==>
        r == Err(RecordingError("Failed to write header: " + header.error)) && unchanged(this)
      ensures !old(recording) && create.Ok? && header.Ok? ==>
        r == Ok(Unit) && recording && writerOpen && samplesWritten == 0 && filePath == Some(path)
        && file == WavHeader(sampleRate, channels, bitsPerSample, 0)
    {
      if recording {
        return Err(RecordingError("Already recording"));
      }
      if create.Err? {
        return Err(RecordingError("Failed to create file: " + create.error));
      }
      if header.Err? {
        return Err(RecordingError("Failed to write header: " + header.error));
      }
      file := WavHeader(sampleRate, channels, bitsPerSample, 0);
      writerOpen := true;
      filePath := Some(path);
      samplesWritten := 0;
      samplesCounted := 0;
      recording := true;
      r := Ok(Unit);
      assert file[..HEADER_SIZE] == file;
    }

    /**
     * `stop`: refused when not recording. Otherwise recording ends and the writer is given
     * up; a failed flush, release of the file (`into_inner`) or header rewrite is reported,
     * leaving the file and its path as they were; on success the header carries the data
     * size, samples times bytes per sample (the u64 product wrapping, then cut to u32), and the
     * file size reported is 44 more.
     */
    method Stop(flush: Result<Unit, string>, intoInner: Result<Unit, string>, update: Result<Unit, string>) returns (r: Result<RecordingInfo, AudioError>)
      requires Valid()
      modifies this
      ensures Valid()
      ensures !old(recording) ==> r == Err(RecordingError("Not recording")) && unchanged(this)
      ensures old(recording) ==> !recording && !writerOpen && samplesWritten == old(samplesWritten)
      ensures old(recording) && !old(writerOpen) ==>
        r == Err(RecordingError("No writer available")) && file == old(file) && filePath == old(filePath)
      ensures old(recording) && old(writerOpen) && flush.Err? ==>
        r == Err(RecordingError("Failed to flush: " + flush.error)) && file == old(file) && filePath == old(filePath)
      ensures old(recording) && old(writerOpen) && flush.Ok? && intoInner.Err? ==>
        r == Err(RecordingError("Failed to get file: " + intoInner.error)) && file == old(file) && filePath == old(filePath)
      ensures old(recording) && old(writerOpen) && flush.Ok? && intoInner.Ok? && update.Err? ==>
        r == Err(RecordingError("Failed to update header: " + update.error)) && file == old(file) && filePath == old(filePath)
      ensures old(recording) && old(writerOpen) && flush.Ok? && intoInner.Ok? && update.Ok? ==>
        var dataSize := AsU64(old(samplesWritten) * (bitsPerSample / 8));
        r == Ok(RecordingInfo(old(filePath).value, old(samplesWritten), AsU64(HEADER_SIZE + dataSize)))
        && file == Finalise(old(file), sampleRate, channels, bitsPerSample, old(samplesWritten))
        && filePath == None
    {
      if !recording {
        return Err(RecordingError("Not recording"));
      }
      recording := false;
      if !writerOpen {
        return Err(RecordingError("No writer available"));
      }
      writerOpen := false;
      var samples := samplesWritten;
      var dataSize := AsU64(samples * (bitsPerSample / 8));
      if flush.Err? {
        return Err(RecordingError("Failed to flush: " + flush.error));
      }
      if intoInner.Err? {
        return Err(RecordingError("Failed to get file: " + intoInner.error));
      }
      if update.Err? {
        return Err(RecordingError("Failed to update header: " + update.error));
      }
      file := WavHeader(sampleRate, channels, bitsPerSample, AsU32(dataSize)) + file[HEADER_SIZE..];
      var path := filePath.value;
      filePath := None;
      r := Ok(RecordingInfo(path, samples, AsU64(HEADER_SIZE + dataSize)));
    }

    /**
     * `write_samples`: nothing happens (and Ok) unless recording with a writer; an unsupported
     * depth is an error before anything is written; otherwise every sample is appended in the
     * depth's format and the counter grows by their number (wrapping).
     */
    method WriteSamples(samples: seq<real>, f32Bits: real -> u32) returns (r: Result<Unit, AudioError>)
      requires Valid()
      modifies this
      ensures Valid()
      ensures recording == old(recording) && writerOpen == old(writerOpen) && filePath == old(filePath)
      ensures !old(recording) || !old(writerOpen) ==> r == Ok(Unit) && file == old(file) && samplesWritten == old(samplesWritten)
      ensures old(recording) && old(writerOpen) && !Supported(bitsPerSample) ==>
        r == Err(RecordingError("Unsupported bit depth: " + Text.Decimal(bitsPerSample)))
        && file == old(file) && samplesWritten == old(samplesWritten)
      ensures old(recording) && old(writerOpen) && Supported(bitsPerSample) ==>
        r == Ok(Unit) && file == old(file) + EncodeSamples(samples, bitsPerSample, f32Bits)
        && samplesWritten == AsU64(old(samplesWritten) + |samples|)
    {
      if !recording || !writerOpen {
        return Ok(Unit);
      }
      if !Supported(bitsPerSample) {
        return Err(RecordingError("Unsupported bit depth: " + Text.Decimal(bitsPerSample)));
      }
      var out := EncodeAll(samples, bitsPerSample, f32Bits);
      AppendKeepsHeader(file, out);
      file := file + out;
      samplesCounted := samplesCounted + |samples|;
      CounterWraps(samplesWritten, old(samplesCounted), |samples|);
      samplesWritten := AsU64(samplesWritten + |samples|);
      r := Ok(Unit);
    }

    /** `is_recording`. */
    function IsRecording(): (b: bool)
      reads this
      ensures b == recording
    {
      recording
    }

    /** `samples_written`. */
    function SamplesWritten(): (n: u64)
      reads this
      ensures n == samplesWritten
    {
      samplesWritten
    }
  }

  lemma AppendKeepsHeader(file: bytes, more: bytes)
    requires |file| >= HEADER_SIZE
    ensures (file + more)[..HEADER_SIZE] == file[..HEADER_SIZE]
  {
  }

  /** Adding to a wrapped counter wraps the unwrapped sum. */
  lemma CounterWraps(counter: u64, count: nat, n: nat)
    requires counter == AsU64(count)
    ensures AsU64(counter + n) == AsU64(count + n)
  {
    var m := 0x1_0000_0000_0000_0000;
    var q := count / m;
    assert count == q * m + counter;
    assert count + n == q * m + (counter + n);
    var q2, r2 := (counter + n) / m, (counter + n) % m;
    assert count + n == (q + q2) * m + r2;
    DivUnique(count + n, m, q + q2, r2);
  }
}
