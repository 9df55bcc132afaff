/**
 * The encryption layer (src/network/encryption.rs): a session key and a 4-byte nonce prefix
 * derived by HKDF from a shared secret under role-specific labels, per-packet nonces built from
 * the sequence number, and the rewriting of packets on their way to and from the socket.
 * HKDF-SHA256 and AES-256-GCM are parameters: the model fixes what goes into them, not what
 * they compute.
 */
module Encryption {
  import opened Bytes
  import opened Wrappers
  import opened Net
  import Packet

  const KEY_SIZE: nat := 32
  const NONCE_PREFIX_SIZE: nat := 4
  const NONCE_SIZE: nat := 12

  /** The HKDF `info` labels (byte-string literals in the source). */
  const KEY_LABEL_INITIATOR: string := "jamjam-session-key-initiator"
  const KEY_LABEL_RESPONDER: string := "jamjam-session-key-responder"
  const NONCE_LABEL_INITIATOR: string := "jamjam-nonce-prefix-initiator"
  const NONCE_LABEL_RESPONDER: string := "jamjam-nonce-prefix-responder"

  function KeyLabel(isInitiator: bool): string
  {
    if isInitiator then KEY_LABEL_INITIATOR else KEY_LABEL_RESPONDER
  }

  function NonceLabel(isInitiator: bool): string
  {
    if isInitiator then NONCE_LABEL_INITIATOR else NONCE_LABEL_RESPONDER
  }

  /**
   * `Hkdf::<Sha256>::new(None, secret).expand(info, n)`: n bytes from a secret and a label.
   * Expansion to 32 or 4 bytes never fails, so only the output length is constrained.
   */
  type Kdf = f: (bytes, bytes, nat) -> bytes | forall secret, info, n :: |f(secret, info, n)| == n
    witness (secret: bytes, info: bytes, n: nat) => seq(n, _ => 0)

  /** AES-256-GCM as a pair of functions of (key, nonce, data); either may fail. */
  datatype Aead = Aead(seal: (bytes, bytes, bytes) -> Option<bytes>, open: (bytes, bytes, bytes) -> Option<bytes>)

  /** What the round trip relies on: opening what was sealed under the same key and nonce gives it back. */
  ghost predicate Correct(aead: Aead)
  {
    forall key, nonce, plain :: aead.seal(key, nonce, plain).Some? ==>
      aead.open(key, nonce, aead.seal(key, nonce, plain).value) == Some(plain)
  }

  /** `EncryptionContext`: the cipher's key and the nonce prefix. */
  datatype Context = Context(key: bytes, noncePrefix: bytes)

  /** `EncryptionContext::from_shared_secret`: key and prefix, each from its own label for the role. */
  function FromSharedSecret(kdf: Kdf, secret: bytes, isInitiator: bool): (ctx: Context)
    ensures |ctx.key| == KEY_SIZE && |ctx.noncePrefix| == NONCE_PREFIX_SIZE
  {
    Context(kdf(secret, Ascii(KeyLabel(isInitiator)), KEY_SIZE),
            kdf(secret, Ascii(NonceLabel(isInitiator)), NONCE_PREFIX_SIZE))
  }

  /** The two roles expand with different labels, and no key label is a prefix label. */
  lemma RolesUseDistinctLabels(a: bool, b: bool)
    ensures a != b ==> Ascii(KeyLabel(a)) != Ascii(KeyLabel(b))
    ensures a != b ==> Ascii(NonceLabel(a)) != Ascii(NonceLabel(b))
    ensures Ascii(KeyLabel(a)) != Ascii(NonceLabel(b))
  {
    assert Ascii(KeyLabel(a))[7] != Ascii(NonceLabel(b))[7];
    if a != b {
      assert Ascii(KeyLabel(a))[19] != Ascii(KeyLabel(b))[19];
      assert Ascii(NonceLabel(a))[20] != Ascii(NonceLabel(b))[20];
    }
  }

  /** `derive_nonce`: the prefix, the sequence big-endian, then four zero bytes. */
  function DeriveNonce(ctx: Context, sequence: u32): (nonce: bytes)
    requires |ctx.noncePrefix| == NONCE_PREFIX_SIZE
    ensures |nonce| == NONCE_SIZE
    ensures nonce[..4] == ctx.noncePrefix && nonce[8..] == [0, 0, 0, 0]
    ensures ReadU32BE(nonce, 4) == sequence
  {
    var nonce := ctx.noncePrefix + U32BE(sequence) + [0, 0, 0, 0];
    assert nonce[4..8] == U32BE(sequence);
    U32BEAt(nonce, 4, sequence);
    nonce
  }

  /** Within one context every sequence number has its own nonce, so no nonce is reused. */
  lemma NoncesDistinct(ctx: Context, a: u32, b: u32)
    requires |ctx.noncePrefix| == NONCE_PREFIX_SIZE
    requires a != b
    ensures DeriveNonce(ctx, a) != DeriveNonce(ctx, b)
  {
    assert ReadU32BE(DeriveNonce(ctx, a), 4) != ReadU32BE(DeriveNonce(ctx, b), 4);
  }

  /** `encrypt`: seal under the sequence's nonce; a failure becomes EncryptionError. */
  function Encrypt(aead: Aead, ctx: Context, sequence: u32, plaintext: bytes): (r: Result<bytes, NetworkError>)
    requires |ctx.noncePrefix| == NONCE_PREFIX_SIZE
    ensures r.Ok? <==> aead.seal(ctx.key, DeriveNonce(ctx, sequence), plaintext).Some?
    ensures r.Ok? ==> Some(r.value) == aead.seal(ctx.key, DeriveNonce(ctx, sequence), plaintext)
    ensures r.Err? ==> r.error == EncryptionError("Encryption failed")
  {
    match aead.seal(ctx.key, DeriveNonce(ctx, sequence), plaintext)
    case None => Err(EncryptionError("Encryption failed"))
    case Some(c) => Ok(c)
  }

  /** `decrypt`: open under the sequence's nonce; a failure becomes EncryptionError. */
  function Decrypt(aead: Aead, ctx: Context, sequence: u32, ciphertext: bytes): (r: Result<bytes, NetworkError>)
    requires |ctx.noncePrefix| == NONCE_PREFIX_SIZE
    ensures r.Ok? <==> aead.open(ctx.key, DeriveNonce(ctx, sequence), ciphertext).Some?
    ensures r.Ok? ==> Some(r.value) == aead.open(ctx.key, DeriveNonce(ctx, sequence), ciphertext)
    ensures r.Err? ==> r.error == EncryptionError("Decryption failed")
  {
    match aead.open(ctx.key, DeriveNonce(ctx, sequence), ciphertext)
    case None => Err(EncryptionError("Decryption failed"))
    case Some(p) => Ok(p)
  }

  /**
   * Two contexts derived from the same secret for the same role decrypt each other's output:
   * under a correct cipher, decrypting under the same sequence gives the plaintext back.
   */
  lemma EncryptDecrypt(aead: Aead, kdf: Kdf, secret: bytes, isInitiator: bool, sequence: u32, plaintext: bytes)
    requires Correct(aead)
    requires Encrypt(aead, FromSharedSecret(kdf, secret, isInitiator), sequence, plaintext).Ok?
    ensures var sender := FromSharedSecret(kdf, secret, isInitiator);
      var receiver := FromSharedSecret(kdf, secret, isInitiator);
      Decrypt(aead, receiver, sequence, Encrypt(aead, sender, sequence, plaintext).value) == Ok(plaintext)
  {
  }

  // ----- EncryptedTransport -----

  /**
   * The packet `EncryptedTransport::send_to` hands to the socket: the same header with the
   * encrypted flag set, and the payload encrypted under the packet's sequence.
   */
  function Seal(aead: Aead, ctx: Context, p: Packet.Packet): (r: Result<Packet.Packet, NetworkError>)
    requires |ctx.noncePrefix| == NONCE_PREFIX_SIZE
    ensures r.Err? <==> Encrypt(aead, ctx, p.sequence, p.payload).Err?
    ensures r.Err? ==> r.error == Encrypt(aead, ctx, p.sequence, p.payload).error
    ensures r.Ok? ==>
      r.value.version == p.version && r.value.packetType == p.packetType
      && r.value.sequence == p.sequence && r.value.timestamp == p.timestamp
      && r.value.flags == Packet.Flags(true, p.flags.hasFec)
      && r.value.payload == Encrypt(aead, ctx, p.sequence, p.payload).value
  {
    match Encrypt(aead, ctx, p.sequence, p.payload)
    case Err(e) => Err(e)
    case Ok(c) => Ok(p.(flags := p.flags.(encrypted := true), payload := c))
  }

  /** `send_to`: an encryption failure is returned before anything is sent; otherwise the socket's result. */
  function SendTo(aead: Aead, ctx: Context, p: Packet.Packet, sent: Result<Unit, NetworkError>): (r: Result<Unit, NetworkError>)
    requires |ctx.noncePrefix| == NONCE_PREFIX_SIZE
    ensures Seal(aead, ctx, p).Err? ==> r == Err(Seal(aead, ctx, p).error)
    ensures Seal(aead, ctx, p).Ok? ==> r == sent
  {
    match Seal(aead, ctx, p)
    case Err(e) => Err(e)
    case Ok(_) => sent
  }

  /**
   * The packet `recv_from` returns for the received datagram: undecodable bytes are
   * InvalidPacket; otherwise the payload is decrypted under the packet's sequence, a failure
   * returned as the error, and the encrypted flag cleared.
   */
  function Open(aead: Aead, ctx: Context, datagram: bytes): (r: Result<Packet.Packet, NetworkError>)
    requires |ctx.noncePrefix| == NONCE_PREFIX_SIZE
    ensures Packet.FromBytes(datagram).None? ==> r == Err(InvalidPacket)
    ensures Packet.FromBytes(datagram).Some? ==>
      var e := Packet.FromBytes(datagram).value;
      match Decrypt(aead, ctx, e.sequence, e.payload)
      case Err(err) => r == Err(err)
      case Ok(plain) => r == Ok(e.(flags := e.flags.(encrypted := false), payload := plain))
  {
    match Packet.FromBytes(datagram)
    case None => Err(InvalidPacket)
    case Some(e) =>
      match Decrypt(aead, ctx, e.sequence, e.payload)
      case Err(err) => Err(err)
      case Ok(plain) => Ok(e.(flags := e.flags.(encrypted := false), payload := plain))
  }

  /**
   * What one peer seals and puts on the wire, a peer holding the matching context opens into
   * the original packet, with only the encrypted flag cleared.
   */
  lemma SealOpen(aead: Aead, kdf: Kdf, secret: bytes, isInitiator: bool, p: Packet.Packet)
    requires Correct(aead)
    requires p.version == Packet.PROTOCOL_VERSION
    requires Seal(aead, FromSharedSecret(kdf, secret, isInitiator), p).Ok?
    ensures var ctx := FromSharedSecret(kdf, secret, isInitiator);
      Open(aead, ctx, Packet.ToBytes(Seal(aead, ctx, p).value)) == Ok(p.(flags := p.flags.(encrypted := false)))
  {
    var ctx := FromSharedSecret(kdf, secret, isInitiator);
    var sealed := Seal(aead, ctx, p).value;
    Packet.RoundTrip(sealed);
    assert Packet.FromBytes(Packet.ToBytes(sealed)) == Some(sealed);
    EncryptDecrypt(aead, kdf, secret, isInitiator, p.sequence, p.payload);
    assert Decrypt(aead, ctx, sealed.sequence, sealed.payload) == Ok(p.payload);
    assert sealed.(flags := sealed.flags.(encrypted := false), payload := p.payload)
      == p.(flags := p.flags.(encrypted := false));
  }

  /** `KeyExchangeMessage`: the 32-byte X25519 public key a peer sends through signalling. */
  datatype KeyExchangeMessage = KeyExchangeMessage(publicKey: bytes)
}
