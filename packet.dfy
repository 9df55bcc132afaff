/**
 * The jamjam datagram: a 12-byte header (version, type, big-endian sequence, big-endian
 * timestamp, big-endian flags) followed by the payload, and the three latency-measurement
 * payloads carried inside it (src/protocol/packet.rs).
 */
module Packet {
  import opened Bytes
  import opened Wrappers
  import Utf8

  const PROTOCOL_VERSION: byte := 1
  const HEADER_SIZE: nat := 12

  datatype PacketType = Audio | Fec | Control | KeepAlive | LatencyPing | LatencyPong | LatencyInfo

  /** `packet_type as u8`: the `#[repr(u8)]` discriminant. */
  function TypeToByte(t: PacketType): (b: byte)
    ensures 1 <= b <= 7
    ensures TypeFromByte(b) == Some(t)
  {
    match t
    case Audio => 1
    case Fec => 2
    case Control => 3
    case KeepAlive => 4
    case LatencyPing => 5
    case LatencyPong => 6
    case LatencyInfo => 7
  }

  /** `PacketType::try_from(u8)`. */
  function TypeFromByte(b: byte): (r: Option<PacketType>)
    ensures r.Some? <==> 1 <= b <= 7
  {
    match b
    case 1 => Some(Audio)
    case 2 => Some(Fec)
    case 3 => Some(Control)
    case 4 => Some(KeepAlive)
    case 5 => Some(LatencyPing)
    case 6 => Some(LatencyPong)
    case 7 => Some(LatencyInfo)
    case _ => None
  }

  /** Exactly the bytes 1..7 name a packet type, each the discriminant of the type it names. */
  lemma TypeFromByteExact(b: byte)
    ensures TypeFromByte(b).Some? <==> 1 <= b <= 7
    ensures TypeFromByte(b).Some? ==> TypeToByte(TypeFromByte(b).value) == b
  {
  }

  datatype Flags = Flags(encrypted: bool, hasFec: bool)

  const DEFAULT_FLAGS := Flags(false, false)

  /** Bit k of v, `v & (1 << k) != 0`. */
  predicate Bit(v: nat, k: nat)
  {
    (v / Pow2(k)) % 2 == 1
  }

  /** `PacketFlags::to_u16`: bit 0 is `encrypted`, bit 1 is `has_fec`. */
  function FlagsToU16(f: Flags): (v: u16)
    ensures v < 4
    ensures Bit(v, 0) == f.encrypted && Bit(v, 1) == f.hasFec
  {
    (if f.encrypted then 1 else 0) + (if f.hasFec then 2 else 0)
  }

  /** `PacketFlags::from_u16`: only bits 0 and 1 are read. */
  function FlagsFromU16(v: u16): (f: Flags)
    ensures f.encrypted <==> v % 2 == 1
    ensures f.hasFec <==> (v / 2) % 2 == 1
  {
    Flags(Bit(v, 0), Bit(v, 1))
  }

  lemma FlagsRoundTrip(f: Flags)
    ensures FlagsFromU16(FlagsToU16(f)) == f
  {
  }

  /** Bits above bit 1 are ignored. */
  lemma FlagsIgnoreHighBits(v: u16)
    ensures FlagsFromU16(v) == FlagsFromU16(v % 4)
    ensures FlagsToU16(FlagsFromU16(v)) == v % 4
  {
    assert Pow2(1) == 2;
  }

  datatype Packet = Packet(version: byte, packetType: PacketType, sequence: u32, timestamp: u32,
                           flags: Flags, payload: bytes)

  /** `Packet::audio`. */
  function AudioPacket(sequence: u32, timestamp: u32, payload: bytes): (p: Packet)
    ensures p.version == PROTOCOL_VERSION && p.packetType == Audio && p.flags == DEFAULT_FLAGS
    ensures p.sequence == sequence && p.timestamp == timestamp && p.payload == payload
  {
    Packet(PROTOCOL_VERSION, Audio, sequence, timestamp, DEFAULT_FLAGS, payload)
  }

  /** A control-plane packet: timestamp 0, default flags. */
  function ControlPacket(t: PacketType, sequence: u32, payload: bytes): Packet
  {
    Packet(PROTOCOL_VERSION, t, sequence, 0, DEFAULT_FLAGS, payload)
  }

  /** `Packet::keep_alive`. */
  function KeepAlivePacket(sequence: u32): (p: Packet)
    ensures p.version == PROTOCOL_VERSION && p.packetType == KeepAlive && p.flags == DEFAULT_FLAGS
    ensures p.sequence == sequence && p.timestamp == 0 && p.payload == []
  {
    ControlPacket(KeepAlive, sequence, [])
  }

  /** `Packet::latency_ping`. */
  function LatencyPingPacket(sequence: u32, ping: Ping): (p: Packet)
    ensures p.packetType == LatencyPing && p.sequence == sequence && p.timestamp == 0
    ensures PingFromBytes(p.payload) == Some(ping)
  {
    PingRoundTrip(ping);
    ControlPacket(LatencyPing, sequence, PingToBytes(ping))
  }

  /** `Packet::latency_pong`. */
  function LatencyPongPacket(sequence: u32, pong: Pong): (p: Packet)
    ensures p.packetType == LatencyPong && p.sequence == sequence && p.timestamp == 0
    ensures PongFromBytes(p.payload) == Some(pong)
  {
    PongRoundTrip(pong);
    ControlPacket(LatencyPong, sequence, PongToBytes(pong))
  }

  /** `Packet::latency_info`. */
  function LatencyInfoPacket(sequence: u32, info: InfoMessage): (p: Packet)
    requires Utf8.Len(info.codec) <= 255
    ensures p.packetType == LatencyInfo && p.sequence == sequence && p.timestamp == 0
    ensures InfoFromBytes(p.payload) == Some(info)
  {
    InfoRoundTrip(info);
    ControlPacket(LatencyInfo, sequence, InfoToBytes(info))
  }

  /** `Packet::to_bytes`. */
  function ToBytes(p: Packet): (r: bytes)
    ensures |r| == HEADER_SIZE + |p.payload|
    ensures r[0] == p.version && r[1] == TypeToByte(p.packetType)
    ensures ReadU32BE(r, 2) == p.sequence && ReadU32BE(r, 6) == p.timestamp
    ensures FlagsFromU16(ReadU16BE(r, 10)) == p.flags
    ensures r[HEADER_SIZE..] == p.payload
  {
    var r := [p.version, TypeToByte(p.packetType)] + U32BE(p.sequence) + U32BE(p.timestamp)
      + U16BE(FlagsToU16(p.flags)) + p.payload;
    assert r[2..6] == U32BE(p.sequence);
    assert r[6..10] == U32BE(p.timestamp);
    assert r[10..12] == U16BE(FlagsToU16(p.flags));
    U32BEAt(r, 2, p.sequence);
    U32BEAt(r, 6, p.timestamp);
    U16BEAt(r, 10, FlagsToU16(p.flags));
    FlagsRoundTrip(p.flags);
    r
  }

  /** `Packet::from_bytes`. */
  function FromBytes(data: bytes): (r: Option<Packet>)
    ensures r.None? <==> |data| < HEADER_SIZE || data[0] != PROTOCOL_VERSION || TypeFromByte(data[1]).None?
    ensures r.Some? ==> r.value.version == PROTOCOL_VERSION && r.value.payload == data[HEADER_SIZE..]
    ensures r.Some? ==> TypeToByte(r.value.packetType) == data[1]
  {
    if |data| < HEADER_SIZE || data[0] != PROTOCOL_VERSION then None
    else
      match TypeFromByte(data[1])
      case None => None
      case Some(t) =>
        Some(Packet(data[0], t, ReadU32BE(data, 2), ReadU32BE(data, 6),
                    FlagsFromU16(ReadU16BE(data, 10)), data[HEADER_SIZE..]))
  }

  /** A packet of the current protocol version survives encoding and decoding unchanged. */
  lemma RoundTrip(p: Packet)
    requires p.version == PROTOCOL_VERSION
    ensures FromBytes(ToBytes(p)) == Some(p)
  {
  }

  /**
   * Conversely, decoding then re-encoding gives back the input exactly when its flags
   * field uses no bit above bit 1.
   */
  lemma BytesRoundTrip(data: bytes)
    requires FromBytes(data).Some?
    ensures ToBytes(FromBytes(data).value) == data <==> ReadU16BE(data, 10) < 4
  {
    var p := FromBytes(data).value;
    var r := ToBytes(p);
    var v := ReadU16BE(data, 10);
    FlagsIgnoreHighBits(v);
    if v < 4 {
      TypeFromByteExact(data[1]);
      U32BERead(data, 2);
      U32BERead(data, 6);
      U16BERead(data, 10);
      assert r[..2] == data[..2];
      assert r[2..6] == data[2..6];
      assert r[6..10] == data[6..10];
      assert r[10..12] == data[10..12];
      assert r[12..] == data[12..];
      assert r == r[..2] + r[2..6] + r[6..10] + r[10..12] + r[12..];
      assert data == data[..2] + data[2..6] + data[6..10] + data[10..12] + data[12..];
    }
  }

  /** `LatencyPing`: the sender's clock in microseconds and a ping number. */
  datatype Ping = Ping(sentTimeUs: u64, pingSequence: u32)
  /** `LatencyPong`: the echoed clock value and ping number. */
  datatype Pong = Pong(originalSentTimeUs: u64, pingSequence: u32)

  const PING_SIZE: nat := 12

  function PingToBytes(m: Ping): (r: bytes)
    ensures |r| == PING_SIZE
    ensures ReadU64BE(r, 0) == m.sentTimeUs && ReadU32BE(r, 8) == m.pingSequence
  {
    var r := U64BE(m.sentTimeUs) + U32BE(m.pingSequence);
    assert r[0..8] == U64BE(m.sentTimeUs);
    assert r[8..12] == U32BE(m.pingSequence);
    U64BEAt(r, 0, m.sentTimeUs);
    U32BEAt(r, 8, m.pingSequence);
    r
  }

  function PingFromBytes(data: bytes): (r: Option<Ping>)
    ensures r.None? <==> |data| < PING_SIZE
  {
    if |data| < PING_SIZE then None else Some(Ping(ReadU64BE(data, 0), ReadU32BE(data, 8)))
  }

  lemma PingRoundTrip(m: Ping)
    ensures PingFromBytes(PingToBytes(m)) == Some(m)
  {
  }

  function PongToBytes(m: Pong): (r: bytes)
    ensures |r| == PING_SIZE
    ensures ReadU64BE(r, 0) == m.originalSentTimeUs && ReadU32BE(r, 8) == m.pingSequence
  {
    var r := U64BE(m.originalSentTimeUs) + U32BE(m.pingSequence);
    assert r[0..8] == U64BE(m.originalSentTimeUs);
    assert r[8..12] == U32BE(m.pingSequence);
    U64BEAt(r, 0, m.originalSentTimeUs);
    U32BEAt(r, 8, m.pingSequence);
    r
  }

  function PongFromBytes(data: bytes): (r: Option<Pong>)
    ensures r.None? <==> |data| < PING_SIZE
  {
    if |data| < PING_SIZE then None else Some(Pong(ReadU64BE(data, 0), ReadU32BE(data, 8)))
  }

  lemma PongRoundTrip(m: Pong)
    ensures PongFromBytes(PongToBytes(m)) == Some(m)
  {
  }

  /**
   * `LatencyInfoMessage`. The five `f32` fields are carried as their IEEE-754 bit
   * patterns, which is what `to_be_bytes`/`from_be_bytes` move.
   */
  datatype InfoMessage = InfoMessage(captureBufferMs: u32, playbackBufferMs: u32, encodeMs: u32,
                                     decodeMs: u32, jitterBufferMs: u32, frameSize: u32,
                                     sampleRate: u32, codec: string)

  const INFO_MIN_SIZE: nat := 29

  function Min(a: int, b: int): int { if a < b then a else b }

  /** The seven 32-bit fields, in wire order. */
  function InfoFields(m: InfoMessage): seq<u32>
  {
    [m.captureBufferMs, m.playbackBufferMs, m.encodeMs, m.decodeMs, m.jitterBufferMs, m.frameSize, m.sampleRate]
  }

  /** `LatencyInfoMessage::to_bytes`. */
  function InfoToBytes(m: InfoMessage): (r: bytes)
    ensures var len := Min(Utf8.Len(m.codec), 255);
      |r| == INFO_MIN_SIZE + len && r[28] == len && r[INFO_MIN_SIZE..] == Utf8.Encode(m.codec)[..len]
    ensures forall k :: 0 <= k < 7 ==> ReadU32BE(r, 4 * k) == InfoFields(m)[k]
  {
    var enc := Utf8.Encode(m.codec);
    var len := Min(|enc|, 255);
    var fields := U32sBE(InfoFields(m));
    var r := fields + [len] + enc[..len];
    forall k | 0 <= k < 7 ensures ReadU32BE(r, 4 * k) == InfoFields(m)[k] {
      assert r[4 * k..4 * k + 4] == fields[4 * k..4 * k + 4];
      U32BERead(fields, 4 * k);
      U32BEAt(r, 4 * k, InfoFields(m)[k]);
    }
    r
  }

  /** `LatencyInfoMessage::from_bytes`. */
  function InfoFromBytes(data: bytes): (r: Option<InfoMessage>)
    ensures |data| < INFO_MIN_SIZE ==> r.None?
    ensures |data| >= INFO_MIN_SIZE ==>
      (r.Some? <==> |data| >= INFO_MIN_SIZE + data[28] && Utf8.Decode(data[INFO_MIN_SIZE..INFO_MIN_SIZE + data[28]]).Some?)
    ensures r.Some? ==> forall k :: 0 <= k < 7 ==> InfoFields(r.value)[k] == ReadU32BE(data, 4 * k)
  {
    if |data| < INFO_MIN_SIZE then None
    else
      var len := data[28] as nat;
      if |data| < INFO_MIN_SIZE + len then None
      else
        match Utf8.Decode(data[INFO_MIN_SIZE..INFO_MIN_SIZE + len])
        case None => None
        case Some(codec) =>
          Some(InfoMessage(ReadU32BE(data, 0), ReadU32BE(data, 4), ReadU32BE(data, 8), ReadU32BE(data, 12),
                           ReadU32BE(data, 16), ReadU32BE(data, 20), ReadU32BE(data, 24), codec))
  }

  /** A message whose codec name fits in 255 UTF-8 bytes survives a round trip. */
  lemma InfoRoundTrip(m: InfoMessage)
    requires Utf8.Len(m.codec) <= 255
    ensures InfoFromBytes(InfoToBytes(m)) == Some(m)
  {
    var r := InfoToBytes(m);
    var enc := Utf8.Encode(m.codec);
    assert r[INFO_MIN_SIZE..INFO_MIN_SIZE + r[28]] == enc;
    Utf8.DecodeEncode(m.codec);
    var f := InfoFields(m);
    assert ReadU32BE(r, 0) == f[0] && ReadU32BE(r, 4) == f[1] && ReadU32BE(r, 8) == f[2];
    assert ReadU32BE(r, 12) == f[3] && ReadU32BE(r, 16) == f[4] && ReadU32BE(r, 20) == f[5];
    assert ReadU32BE(r, 24) == f[6];
  }
}
