/**
 * The STUN client's message handling (src/network/stun.rs): the Binding request a client sends
 * and the parsing of the Binding response, following sections 6, 15, 15.1 and 15.2 of RFC 5389.
 */
module Stun {
  import opened Bytes
  import opened Wrappers
  import opened Net

  const BINDING_REQUEST: u16 := 0x0001
  const BINDING_RESPONSE: u16 := 0x0101
  const MAPPED_ADDRESS: u16 := 0x0001
  const XOR_MAPPED_ADDRESS: u16 := 0x0020
  const MAGIC_COOKIE: u32 := 0x2112A442
  /** The high half of the cookie, which XOR-MAPPED-ADDRESS folds into the port. */
  const COOKIE_HIGH: u16 := 0x2112

  const HEADER_SIZE: nat := 20
  const TRANSACTION_ID_SIZE: nat := 12

  type Reply = Result<SocketAddr, NetworkError>

  function Fail(f: StunFailure): Reply { Err(StunFailed(f)) }

  /** The failures `parse_binding_response` reports about the header, before any attribute is read. */
  predicate HeaderFailure(f: StunFailure)
  {
    f.ResponseTooShort? || f.UnexpectedMessageType? || f.InvalidMagicCookie?
    || f.TransactionIdMismatch? || f.MessageTruncated?
  }

  /** A failure reported about the attributes rather than the header. */
  predicate AttributeFailure(r: Reply)
  {
    r.Err? ==> r.error.StunFailed? && !HeaderFailure(r.error.failure)
  }

  /** `build_binding_request`: a 20-byte header with no attributes (section 6 of RFC 5389). */
  function BuildBindingRequest(txn: bytes): (r: bytes)
    requires |txn| == TRANSACTION_ID_SIZE
    ensures |r| == HEADER_SIZE
    ensures ReadU16BE(r, 0) == BINDING_REQUEST && ReadU16BE(r, 2) == 0
    ensures ReadU32BE(r, 4) == MAGIC_COOKIE && r[8..20] == txn
  {
    var r := U16BE(BINDING_REQUEST) + U16BE(0) + U32BE(MAGIC_COOKIE) + txn;
    U16BEAt(r, 0, BINDING_REQUEST);
    U16BEAt(r, 2, 0);
    U32BEAt(r, 4, MAGIC_COOKIE);
    r
  }

  /** `(n + 3) & !3`: n rounded up to the next multiple of four. */
  function Pad4(n: nat): (r: nat)
    ensures r % 4 == 0 && n <= r < n + 4
  {
    (n + 3) - (n + 3) % 4
  }

  /** `parse_xor_mapped_address` (section 15.2 of RFC 5389): only the IPv4 family yields an address. */
  function ParseXorMappedAddress(value: bytes): (r: Reply)
    ensures r.Ok? <==> |value| >= 8 && value[1] == 1
    ensures r.Ok? ==> r.value.ip.V4?
    ensures |value| < 8 ==> r == Fail(XorMappedAddressTooShort)
    ensures AttributeFailure(r)
  {
    if |value| < 8 then Fail(XorMappedAddressTooShort)
    else
      var family := value[1];
      var port := Xor16(ReadU16BE(value, 2), COOKIE_HIGH);
      if family == 1 then
        Ok(SocketAddr(Ipv4FromU32(Xor32(ReadU32BE(value, 4), MAGIC_COOKIE)), port))
      else if family == 2 then
        if |value| < 20 then Fail(XorMappedAddressIpv6TooShort) else Fail(Ipv6NotSupported)
      else Fail(UnknownAddressFamily(family))
  }

  /** `parse_mapped_address` (section 15.1 of RFC 5389): the port and the four octets as they stand. */
  function ParseMappedAddress(value: bytes): (r: Reply)
    ensures r.Ok? <==> |value| >= 8 && value[1] == 1
    ensures r.Ok? ==> r.value.ip.V4?
    ensures |value| < 8 ==> r == Fail(MappedAddressTooShort)
    ensures AttributeFailure(r)
  {
    if |value| < 8 then Fail(MappedAddressTooShort)
    else
      var family := value[1];
      if family == 1 then
        Ok(SocketAddr(V4(value[4], value[5], value[6], value[7]), ReadU16BE(value, 2)))
      else if family == 2 then Fail(Ipv6NotSupported)
      else Fail(UnknownAddressFamily(family))
  }

  /**
   * The attribute walk from `offset` while a 4-byte attribute header fits before `end` (the end
   * of the declared message). An attribute whose value runs past the data stops the walk; the
   * first XOR-MAPPED-ADDRESS or MAPPED-ADDRESS decides the outcome; others are skipped with
   * their padding (section 15 of RFC 5389).
   */
  function Walk(data: bytes, offset: nat, end: nat): (r: Reply)
    requires end <= |data|
    ensures r.Ok? ==> r.value.ip.V4?
    ensures AttributeFailure(r)
    decreases end - offset
  {
    if offset + 4 > end then Fail(NoMappedAddress)
    else
      var attrType := ReadU16BE(data, offset);
      var attrLen := ReadU16BE(data, offset + 2);
      if offset + 4 + attrLen > |data| then Fail(NoMappedAddress)
      else
        var value := data[offset + 4..offset + 4 + attrLen];
        if attrType == XOR_MAPPED_ADDRESS then ParseXorMappedAddress(value)
        else if attrType == MAPPED_ADDRESS then ParseMappedAddress(value)
        else Walk(data, offset + 4 + Pad4(attrLen), end)
  }

  /** What `parse_binding_response` checks of the header before it looks at any attribute. */
  predicate WellFormedHeader(data: bytes, txn: bytes)
  {
    |data| >= HEADER_SIZE
    && ReadU16BE(data, 0) == BINDING_RESPONSE
    && ReadU32BE(data, 4) == MAGIC_COOKIE
    && data[8..20] == txn
    && HEADER_SIZE + ReadU16BE(data, 2) <= |data|
  }

  /**
   * `parse_binding_response`: the header checks in the source's order (too short, message type,
   * cookie, transaction ID, declared length), then the attribute walk over the declared length.
   */
  function ParseResponse(data: bytes, txn: bytes): (r: Reply)
    requires |txn| == TRANSACTION_ID_SIZE
    ensures r.Ok? ==> WellFormedHeader(data, txn) && r.value.ip.V4?
    ensures WellFormedHeader(data, txn) ==> r == Walk(data, HEADER_SIZE, HEADER_SIZE + ReadU16BE(data, 2))
    ensures (r.Err? && r.error.StunFailed? && HeaderFailure(r.error.failure)) <==> !WellFormedHeader(data, txn)
  {
    if |data| < HEADER_SIZE then Fail(ResponseTooShort)
    else if ReadU16BE(data, 0) != BINDING_RESPONSE then Fail(UnexpectedMessageType(ReadU16BE(data, 0)))
    else if ReadU32BE(data, 4) != MAGIC_COOKIE then Fail(InvalidMagicCookie)
    else if data[8..20] != txn then Fail(TransactionIdMismatch)
    else if |data| < HEADER_SIZE + ReadU16BE(data, 2) then Fail(MessageTruncated)
    else Walk(data, HEADER_SIZE, HEADER_SIZE + ReadU16BE(data, 2))
  }

  /** `parse_binding_response` with its `while` loop over the attributes. */
  method ParseBindingResponse(data: bytes, txn: bytes) returns (r: Reply)
    requires |txn| == TRANSACTION_ID_SIZE
    ensures r == ParseResponse(data, txn)
  {
    if |data| < HEADER_SIZE {
      return Fail(ResponseTooShort);
    }
    var msgType := ReadU16BE(data, 0);
    if msgType != BINDING_RESPONSE {
      return Fail(UnexpectedMessageType(msgType));
    }
    if ReadU32BE(data, 4) != MAGIC_COOKIE {
      return Fail(InvalidMagicCookie);
    }
    if data[8..20] != txn {
      return Fail(TransactionIdMismatch);
    }
    var msgLen := ReadU16BE(data, 2);
    if |data| < HEADER_SIZE + msgLen {
      return Fail(MessageTruncated);
    }
    var end := HEADER_SIZE + msgLen;
    var offset := HEADER_SIZE;
    while offset + 4 <= end
      invariant Walk(data, offset, end) == Walk(data, HEADER_SIZE, end)
      decreases end - offset
    {
      var attrType := ReadU16BE(data, offset);
      var attrLen := ReadU16BE(data, offset + 2);
      if offset + 4 + attrLen > |data| {
        break;
      }
      var value := data[offset + 4..offset + 4 + attrLen];
      if attrType == XOR_MAPPED_ADDRESS {
        return ParseXorMappedAddress(value);
      }
      if attrType == MAPPED_ADDRESS {
        return ParseMappedAddress(value);
      }
      offset := offset + 4 + Pad4(attrLen);
    }
    return Fail(NoMappedAddress);
  }

  /**
   * Each header defect has its own failure, and the checks run in the source's order: a failure
   * is reported exactly when every earlier check has passed and its own check fails.
   */
  lemma HeaderChecksInOrder(data: bytes, txn: bytes)
    requires |txn| == TRANSACTION_ID_SIZE
    ensures ParseResponse(data, txn) == Fail(ResponseTooShort) <==> |data| < HEADER_SIZE
    ensures (ParseResponse(data, txn).Err? && ParseResponse(data, txn).error.StunFailed?
             && ParseResponse(data, txn).error.failure.UnexpectedMessageType?)
      <==> |data| >= HEADER_SIZE && ReadU16BE(data, 0) != BINDING_RESPONSE
    ensures |data| >= HEADER_SIZE && ReadU16BE(data, 0) != BINDING_RESPONSE
      ==> ParseResponse(data, txn) == Fail(UnexpectedMessageType(ReadU16BE(data, 0)))
    ensures ParseResponse(data, txn) == Fail(InvalidMagicCookie)
      <==> |data| >= HEADER_SIZE && ReadU16BE(data, 0) == BINDING_RESPONSE && ReadU32BE(data, 4) != MAGIC_COOKIE
    ensures ParseResponse(data, txn) == Fail(TransactionIdMismatch)
      <==> |data| >= HEADER_SIZE && ReadU16BE(data, 0) == BINDING_RESPONSE && ReadU32BE(data, 4) == MAGIC_COOKIE
           && data[8..20] != txn
    ensures ParseResponse(data, txn) == Fail(MessageTruncated)
      <==> |data| >= HEADER_SIZE && ReadU16BE(data, 0) == BINDING_RESPONSE && ReadU32BE(data, 4) == MAGIC_COOKIE
           && data[8..20] == txn && |data| < HEADER_SIZE + ReadU16BE(data, 2)
  {
  }

  /** A client's own request is never taken for a response: its type is a request's. */
  lemma OwnRequestRejected(txn: bytes)
    requires |txn| == TRANSACTION_ID_SIZE
    ensures ParseResponse(BuildBindingRequest(txn), txn) == Fail(UnexpectedMessageType(BINDING_REQUEST))
  {
  }

  // ----- The server's side, as the reference the parser is proved against -----

  /** One attribute of a STUN message: its type and value. */
  datatype Attribute = Attribute(attrType: u16, value: bytes)

  predicate EncodableAttribute(a: Attribute) { |a.value| < 0x1_0000 }

  /** Type, length, value, then zero padding to a multiple of four (section 15 of RFC 5389). */
  function EncodeAttribute(a: Attribute): (r: bytes)
    requires EncodableAttribute(a)
    ensures |r| == 4 + Pad4(|a.value|)
  {
    U16BE(a.attrType) + U16BE(|a.value|) + a.value + seq(Pad4(|a.value|) - |a.value|, _ => 0)
  }

  function EncodeAttributes(attrs: seq<Attribute>): (r: bytes)
    requires forall i :: 0 <= i < |attrs| ==> EncodableAttribute(attrs[i])
  {
    if attrs == [] then [] else EncodeAttribute(attrs[0]) + EncodeAttributes(attrs[1..])
  }

  /** A Binding success response carrying `attrs`, as a server following section 6 of RFC 5389 sends it. */
  function BuildBindingResponse(txn: bytes, attrs: seq<Attribute>): (r: bytes)
    requires |txn| == TRANSACTION_ID_SIZE
    requires forall i :: 0 <= i < |attrs| ==> EncodableAttribute(attrs[i])
    requires |EncodeAttributes(attrs)| < 0x1_0000
  {
    var body := EncodeAttributes(attrs);
    U16BE(BINDING_RESPONSE) + U16BE(|body|) + U32BE(MAGIC_COOKIE) + txn + body
  }

  /** What a client should learn from `attrs`: the first address attribute decides. */
  function FirstMapped(attrs: seq<Attribute>): Reply
  {
    if attrs == [] then Fail(NoMappedAddress)
    else if attrs[0].attrType == XOR_MAPPED_ADDRESS then ParseXorMappedAddress(attrs[0].value)
    else if attrs[0].attrType == MAPPED_ADDRESS then ParseMappedAddress(attrs[0].value)
    else FirstMapped(attrs[1..])
  }

  /** An encoded attribute at `offset` reads back as its type, its length and its value, and the rest follows its padding. */
  lemma AttributeAt(data: bytes, offset: nat, a: Attribute, rest: bytes)
    requires EncodableAttribute(a)
    requires offset <= |data| && data[offset..] == EncodeAttribute(a) + rest
    ensures offset + 4 + Pad4(|a.value|) <= |data|
    ensures ReadU16BE(data, offset) == a.attrType && ReadU16BE(data, offset + 2) == |a.value|
    ensures data[offset + 4..offset + 4 + |a.value|] == a.value
    ensures data[offset + 4 + Pad4(|a.value|)..] == rest
  {
    var head := EncodeAttribute(a);
    var n := |a.value|;
    assert data[offset..offset + 2] == head[0..2] == U16BE(a.attrType);
    assert data[offset + 2..offset + 4] == head[2..4] == U16BE(n);
    U16BEAt(data, offset, a.attrType);
    U16BEAt(data, offset + 2, n);
    assert data[offset + 4..offset + 4 + n] == head[4..4 + n] == a.value;
    assert data[offset + 4 + Pad4(n)..] == data[offset..][|head|..] == rest;
  }

  /** The walk over well-encoded attributes that run to the end of the data finds the first address attribute. */
  lemma {:induction false} WalkEncoded(data: bytes, offset: nat, attrs: seq<Attribute>)
    requires forall i :: 0 <= i < |attrs| ==> EncodableAttribute(attrs[i])
    requires offset <= |data| && data[offset..] == EncodeAttributes(attrs)
    ensures Walk(data, offset, |data|) == FirstMapped(attrs)
    decreases attrs
  {
    if attrs != [] {
      var a := attrs[0];
      AttributeAt(data, offset, a, EncodeAttributes(attrs[1..]));
      if a.attrType == XOR_MAPPED_ADDRESS {
        assert Walk(data, offset, |data|) == ParseXorMappedAddress(a.value);
      } else if a.attrType == MAPPED_ADDRESS {
        assert Walk(data, offset, |data|) == ParseMappedAddress(a.value);
      } else {
        var next := offset + 4 + Pad4(|a.value|);
        assert Walk(data, offset, |data|) == Walk(data, next, |data|);
        WalkEncoded(data, next, attrs[1..]);
      }
    }
  }

  /** A well-formed Binding response parses to the address its first address attribute holds. */
  lemma ParseEncodedResponse(txn: bytes, attrs: seq<Attribute>)
    requires |txn| == TRANSACTION_ID_SIZE
    requires forall i :: 0 <= i < |attrs| ==> EncodableAttribute(attrs[i])
    requires |EncodeAttributes(attrs)| < 0x1_0000
    ensures ParseResponse(BuildBindingResponse(txn, attrs), txn) == FirstMapped(attrs)
  {
    var body := EncodeAttributes(attrs);
    var data := BuildBindingResponse(txn, attrs);
    U16BEAt(data, 0, BINDING_RESPONSE);
    U16BEAt(data, 2, |body|);
    U32BEAt(data, 4, MAGIC_COOKIE);
    assert data[8..20] == txn;
    assert data[HEADER_SIZE..] == body;
    WalkEncoded(data, HEADER_SIZE, attrs);
  }

  /** The XOR-MAPPED-ADDRESS value a server writes for an IPv4 address (section 15.2 of RFC 5389). */
  function EncodeXorMappedAddress(addr: SocketAddr): (r: bytes)
    requires addr.ip.V4?
    ensures |r| == 8
  {
    [0, 1] + U16BE(Xor16(addr.port, COOKIE_HIGH)) + U32BE(Xor32(Ipv4ToU32(addr.ip), MAGIC_COOKIE))
  }

  /** The MAPPED-ADDRESS value for an IPv4 address (section 15.1 of RFC 5389). */
  function EncodeMappedAddress(addr: SocketAddr): (r: bytes)
    requires addr.ip.V4?
    ensures |r| == 8
  {
    [0, 1] + U16BE(addr.port) + [addr.ip.a, addr.ip.b, addr.ip.c, addr.ip.d]
  }

  /** Un-XORing the port and the address gives back what the server XORed. */
  lemma XorMappedRoundTrip(addr: SocketAddr)
    requires addr.ip.V4?
    ensures ParseXorMappedAddress(EncodeXorMappedAddress(addr)) == Ok(addr)
  {
    var r := EncodeXorMappedAddress(addr);
    var xport := Xor16(addr.port, COOKIE_HIGH);
    var xaddr := Xor32(Ipv4ToU32(addr.ip), MAGIC_COOKIE);
    assert r[2..4] == U16BE(xport);
    assert r[4..8] == U32BE(xaddr);
    U16BEAt(r, 2, xport);
    U32BEAt(r, 4, xaddr);
    XorInvolutive(addr.port, COOKIE_HIGH);
    XorInvolutive(Ipv4ToU32(addr.ip), MAGIC_COOKIE);
  }

  lemma MappedRoundTrip(addr: SocketAddr)
    requires addr.ip.V4?
    ensures ParseMappedAddress(EncodeMappedAddress(addr)) == Ok(addr)
  {
    var r := EncodeMappedAddress(addr);
    assert r[2..4] == U16BE(addr.port);
    U16BEAt(r, 2, addr.port);
  }

  /** The example's port 0x329A XOR 0x2112, one bit at a time from the top. */
  lemma ExamplePortXor()
    ensures Xor(0x329A, 0x2112) == 0x1388
  {
    assert Xor(0x0, 0x0) == 0x0;
    assert Xor(0x1, 0x1) == 0x0;
    assert Xor(0x3, 0x2) == 0x1;
    assert Xor(0x6, 0x4) == 0x2;
    assert Xor(0xC, 0x8) == 0x4;
    assert Xor(0x19, 0x10) == 0x9;
    assert Xor(0x32, 0x21) == 0x13;
    assert Xor(0x65, 0x42) == 0x27;
    assert Xor(0xCA, 0x84) == 0x4E;
    assert Xor(0x194, 0x108) == 0x9C;
    assert Xor(0x329, 0x211) == 0x138;
    assert Xor(0x653, 0x422) == 0x271;
    assert Xor(0xCA6, 0x844) == 0x4E2;
    assert Xor(0x194D, 0x1089) == 0x9C4;
    assert Xor(0x329A, 0x2112) == 0x1388;
  }

  /** The example's address 0xE1BAA526 XOR the magic cookie, one bit at a time from the top. */
  lemma ExampleAddressXor()
    ensures Xor(0xE1BAA526, 0x2112A442) == 0xC0A80164
  {
    assert Xor(0x0, 0x0) == 0x0;
    assert Xor(0x1, 0x0) == 0x1;
    assert Xor(0x3, 0x0) == 0x3;
    assert Xor(0x7, 0x1) == 0x6;
    assert Xor(0xE, 0x2) == 0xC;
    assert Xor(0x1C, 0x4) == 0x18;
    assert Xor(0x38, 0x8) == 0x30;
    assert Xor(0x70, 0x10) == 0x60;
    assert Xor(0xE1, 0x21) == 0xC0;
    assert Xor(0x1C3, 0x42) == 0x181;
    assert Xor(0x386, 0x84) == 0x302;
    assert Xor(0x70D, 0x108) == 0x605;
    assert Xor(0xE1B, 0x211) == 0xC0A;
    assert Xor(0x1C37, 0x422) == 0x1815;
    assert Xor(0x386E, 0x844) == 0x302A;
    assert Xor(0x70DD, 0x1089) == 0x6054;
    assert Xor(0xE1BA, 0x2112) == 0xC0A8;
    assert Xor(0x1C375, 0x4225) == 0x18150;
    assert Xor(0x386EA, 0x844A) == 0x302A0;
    assert Xor(0x70DD5, 0x10895) == 0x60540;
    assert Xor(0xE1BAA, 0x2112A) == 0xC0A80;
    assert Xor(0x1C3754, 0x42254) == 0x181500;
    assert Xor(0x386EA9, 0x844A9) == 0x302A00;
    assert Xor(0x70DD52, 0x108952) == 0x605400;
    assert Xor(0xE1BAA5, 0x2112A4) == 0xC0A801;
    assert Xor(0x1C3754A, 0x422548) == 0x1815002;
    assert Xor(0x386EA94, 0x844A91) == 0x302A005;
    assert Xor(0x70DD529, 0x1089522) == 0x605400B;
    assert Xor(0xE1BAA52, 0x2112A44) == 0xC0A8016;
    assert Xor(0x1C3754A4, 0x4225488) == 0x1815002C;
    assert Xor(0x386EA949, 0x844A910) == 0x302A0059;
    assert Xor(0x70DD5293, 0x10895221) == 0x605400B2;
    assert Xor(0xE1BAA526, 0x2112A442) == 0xC0A80164;
  }

  /** The worked example beside the parser: port 0x329A and address 0xE1BAA526 stand for 192.168.1.100:5000. */
  lemma XorMappedExample()
    ensures ParseXorMappedAddress(EXAMPLE_XOR_MAPPED) == Ok(SocketAddr(V4(192, 168, 1, 100), 5000))
  {
    ExampleParsed();
    ExampleUnxored();
  }

  /** Un-XORing the example's fields gives port 5000 and the octets 192.168.1.100. */
  lemma ExampleUnxored()
    ensures Xor16(0x329A, COOKIE_HIGH) == 5000
    ensures Ipv4FromU32(Xor32(0xE1BAA526, MAGIC_COOKIE)) == V4(192, 168, 1, 100)
  {
    ExamplePortXor();
    var addr := Xor32(0xE1BAA526, MAGIC_COOKIE);
    ExampleAddressXor();
    assert addr == 0xC0A80164;
    ExampleOctets();
  }

  lemma ExampleOctets()
    ensures Ipv4FromU32(0xC0A80164) == V4(192, 168, 1, 100)
  {
  }

  /** The XOR-MAPPED-ADDRESS value of the example: IPv4, then the XORed port and address. */
  const EXAMPLE_XOR_MAPPED: bytes := [0x00, 0x01, 0x32, 0x9A, 0xE1, 0xBA, 0xA5, 0x26]

  lemma ExampleParsed()
    ensures ParseXorMappedAddress(EXAMPLE_XOR_MAPPED)
      == Ok(SocketAddr(Ipv4FromU32(Xor32(0xE1BAA526, MAGIC_COOKIE)), Xor16(0x329A, COOKIE_HIGH)))
  {
    assert ReadU16BE(EXAMPLE_XOR_MAPPED, 2) == 0x329A && ReadU32BE(EXAMPLE_XOR_MAPPED, 4) == 0xE1BAA526;
  }
}
