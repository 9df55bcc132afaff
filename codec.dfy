/**
 * The codec layer (src/audio/codec.rs): the codec tag carried in packet flags, the PCM codec
 * that writes f32 samples as little-endian bytes, and the factory that picks a codec. Samples
 * are f32 bit patterns, so the PCM round trip is exact.
 */
module Codec {
  import opened Bytes
  import opened Wrappers
  import Text

  /** An f32 sample as its IEEE 754 bit pattern. */
  type Sample = u32

  /** The bit pattern of `0.0f32`. */
  const SILENCE: Sample := 0

  datatype CodecType = Pcm | Opus

  /** `CodecType::from_flags`: only the low two bits count; 1 is Opus, anything else PCM. */
  function FromFlags(value: byte): (c: CodecType)
    ensures c == Opus <==> value % 4 == 1
  {
    match value % 4
    case 1 => Opus
    case _ => Pcm
  }

  /** `CodecType::to_flags`. */
  function ToFlags(c: CodecType): (value: byte)
    ensures value < 4
  {
    match c
    case Pcm => 0
    case Opus => 1
  }

  /** The tag survives the round trip through the flags byte. */
  lemma FlagsRoundTrip(c: CodecType)
    ensures FromFlags(ToFlags(c)) == c
  {
  }

  /** Bits above the low two never change the codec read from the flags. */
  lemma FlagsIgnoreHighBits(value: byte, high: nat)
    requires value % 4 + 4 * high < 0x100
    ensures FromFlags(value % 4 + 4 * high) == FromFlags(value)
  {
    assert (value % 4 + 4 * high) % 4 == value % 4;
  }

  /** `CodecType::is_available`: PCM always, Opus only in a build with the `opus-codec` feature. */
  function IsAvailable(c: CodecType, opusFeature: bool): (r: bool)
    ensures c == Pcm ==> r
    ensures c == Opus ==> (r <==> opusFeature)
  {
    match c
    case Pcm => true
    case Opus => opusFeature
  }

  /** `CodecConfig`. */
  datatype CodecConfig = CodecConfig(codecType: CodecType, sampleRate: u32, channels: u16, frameSize: u32, bitrate: u32)

  /** `CodecConfig::default`: PCM, 48 kHz mono, 120-sample frames, 128 kbit/s. */
  const DEFAULT_CONFIG := CodecConfig(Pcm, 48000, 1, 120, 128000)

  /** `CodecError`. */
  datatype CodecError =
    | InitializationFailed(message: string)
    | EncodeFailed(message: string)
    | DecodeFailed(message: string)
    | InvalidFrameSize(expected: nat, actual: nat)
    | InvalidData(message: string)
    | NotAvailable(message: string)

  const OPUS_UNAVAILABLE: string := "Opus codec requires the 'opus-codec' feature and libopus system library"

  /** `PcmCodec`: its frame size and channel count, which its operations never change. */
  datatype PcmCodec = PcmCodec(frameSize: u32, channels: u16)

  /** `PcmCodec::new`. */
  function NewPcm(config: CodecConfig): (codec: PcmCodec)
    ensures codec.frameSize == config.frameSize && codec.channels == config.channels
  {
    PcmCodec(config.frameSize, config.channels)
  }

  /** PCM `encode`: four little-endian bytes per sample. */
  function Encode(samples: seq<Sample>): (r: Result<bytes, CodecError>)
    ensures r.Ok? && |r.value| == 4 * |samples|
    ensures forall k :: 0 <= k < |samples| ==> r.value[4 * k..4 * k + 4] == U32LE(samples[k])
  {
    var b := U32sLE(samples);
    forall k | 0 <= k < |samples|
      ensures b[4 * k..4 * k + 4] == U32LE(samples[k])
    {
      U32LERead(b, 4 * k);
    }
    Ok(b)
  }

  /** The message PCM `decode` gives for a length that is not a multiple of four. */
  function BadLengthMessage(len: nat): string
  {
    "PCM data length " + Text.Decimal(len) + " is not a multiple of 4"
  }

  /** PCM `decode`: InvalidData unless the length is a multiple of four; otherwise one sample per four bytes. */
  function Decode(data: bytes): (r: Result<seq<Sample>, CodecError>)
    ensures r.Err? <==> |data| % 4 != 0
    ensures r.Err? ==> r.error == InvalidData(BadLengthMessage(|data|))
    ensures r.Ok? ==> (|r.value| == |data| / 4
      && forall k :: 0 <= k < |r.value| ==> r.value[k] == ReadU32LE(data, 4 * k))
  {
    if |data| % 4 != 0 then Err(InvalidData(BadLengthMessage(|data|)))
    else Ok(ReadU32sLE(data, 0, |data| / 4))
  }

  /** Decoding what was encoded gives the samples back, bit for bit. */
  lemma DecodeEncode(samples: seq<Sample>)
    ensures Decode(Encode(samples).value) == Ok(samples)
  {
    var b := Encode(samples).value;
    assert ReadU32sLE(b, 0, |samples|) == samples;
  }

  /** Encoding what was decoded gives the bytes back. */
  lemma EncodeDecode(data: bytes)
    requires Decode(data).Ok?
    ensures Encode(Decode(data).value) == Ok(data)
  {
    U32sLERead(data);
  }

  /** PCM `decode_plc`: silence, `frame_size` samples for each channel. */
  function DecodePlc(codec: PcmCodec, frameSize: nat): (r: Result<seq<Sample>, CodecError>)
    ensures r.Ok? && |r.value| == frameSize * codec.channels
    ensures forall k :: 0 <= k < |r.value| ==> r.value[k] == SILENCE
  {
    Ok(seq(frameSize * codec.channels, _ => SILENCE))
  }

  /** What `create_codec` hands back. */
  datatype AudioCodec = PcmAudio(pcm: PcmCodec) | OpusAudio(config: CodecConfig)

  /**
   * `create_codec`: PCM always succeeds; Opus is NotAvailable without the feature, and with it
   * succeeds unless the library's initialisation fails with `opusInit`'s error.
   */
  function CreateCodec(config: CodecConfig, opusFeature: bool, opusInit: Option<CodecError>): (r: Result<AudioCodec, CodecError>)
    ensures config.codecType == Pcm ==> r == Ok(PcmAudio(NewPcm(config)))
    ensures config.codecType == Opus && !opusFeature ==> r == Err(NotAvailable(OPUS_UNAVAILABLE))
    ensures config.codecType == Opus && opusFeature ==>
      r == (if opusInit.Some? then Err(opusInit.value) else Ok(OpusAudio(config)))
  {
    match config.codecType
    case Pcm => Ok(PcmAudio(NewPcm(config)))
    case Opus =>
      if !opusFeature then Err(NotAvailable(OPUS_UNAVAILABLE))
      else if opusInit.Some? then Err(opusInit.value)
      else Ok(OpusAudio(config))
  }

  /** A codec is created exactly when its type is available in the build (and Opus starts). */
  lemma CreateIffAvailable(config: CodecConfig, opusFeature: bool)
    ensures CreateCodec(config, opusFeature, None).Ok? <==> IsAvailable(config.codecType, opusFeature)
  {
  }
}
