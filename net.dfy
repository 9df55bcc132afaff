/** Socket addresses (`std::net::SocketAddr`) and the network error enum (src/network/error.rs) as plain values. */
module Net {
  import opened Bytes

  datatype IpAddr = V4(a: byte, b: byte, c: byte, d: byte) | V6(segments: seq<u16>)

  datatype SocketAddr = SocketAddr(ip: IpAddr, port: u16)
  {
    predicate IsIpv6() { ip.V6? }
  }

  /** `Ipv4Addr::from(u32)`: the four octets, most significant first. */
  function Ipv4FromU32(x: u32): (ip: IpAddr)
    ensures ip.V4?
  {
    V4(x / 0x100_0000, (x / 0x1_0000) % 0x100, (x / 0x100) % 0x100, x % 0x100)
  }

  /** `u32::from(Ipv4Addr)`. */
  function Ipv4ToU32(ip: IpAddr): (x: u32)
    requires ip.V4?
    ensures Ipv4FromU32(x) == ip
  {
    var low := ip.c * 0x100 + ip.d;
    var mid := ip.b * 0x1_0000 + low;
    assert low / 0x100 == ip.c && low % 0x100 == ip.d;
    assert mid / 0x1_0000 == ip.b && mid % 0x1_0000 == low;
    var x := ip.a * 0x100_0000 + mid;
    assert x / 0x100_0000 == ip.a && x % 0x100_0000 == mid;
    assert x / 0x1_0000 == ip.a * 0x100 + ip.b;
    assert x / 0x100 == ip.a * 0x1_0000 + ip.b * 0x100 + ip.c;
    x
  }

  /**
   * Why a STUN exchange failed. `NetworkError::StunFailed` carries a formatted message; each
   * constructor here is one of those messages, with the formatted value as its argument.
   */
  datatype StunFailure =
    | ResponseTooShort
    | UnexpectedMessageType(messageType: u16)
    | InvalidMagicCookie
    | TransactionIdMismatch
    | MessageTruncated
    | NoMappedAddress
    | XorMappedAddressTooShort
    | XorMappedAddressIpv6TooShort
    | Ipv6NotSupported
    | UnknownAddressFamily(family: byte)
    | MappedAddressTooShort

  /** `NetworkError`, less the variants that wrap foreign error types (`Io`, `AddrParse`). */
  datatype NetworkError =
    | ConnectionTimeout
    | ConnectionRefused
    | AlreadyConnected
    | NotConnected
    | SendBufferFull
    | InvalidPacket
    | StunFailed(failure: StunFailure)
    | SignalingError(message: string)
    | SessionFull
    | PeerNotFound(peer: string)
    | EncryptionError(message: string)
    | KeyExchangeFailed(message: string)
}
