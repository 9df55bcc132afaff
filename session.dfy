/**
 * The group session (src/network/session.rs): a table of peers under a capacity, a running
 * flag, one audio sequence counter shared by every send, and the mix of the peers' latest audio.
 */
module Session {
  import opened Bytes
  import opened Ints
  import opened Wrappers
  import opened Net
  import Ids
  import Packet
  import Signaling

  type Uuid = Ids.Uuid

  // ----- Configuration and peers -----

  /** `SessionConfig`: the UDP port to bind, the peer capacity and whether to mix. */
  datatype SessionConfig = SessionConfig(localPort: u16, maxPeers: nat, enableMixing: bool)

  /** `SessionConfig::default`. */
  const DEFAULT_CONFIG := SessionConfig(0, 10, true)

  /**
   * `Peer`: who it is, where it is, whether it is connected, how many packets came from it and
   * the samples of its latest packet (f32 values as reals).
   */
  datatype Peer = Peer(
    info: Signaling.PeerInfo,
    addr: SocketAddr,
    connected: bool,
    packetsReceived: u32,
    lastAudio: Option<seq<real>>)

  /** The entry `add_peer` stores for a peer it has not seen. */
  function NewPeer(info: Signaling.PeerInfo, addr: SocketAddr): Peer
  {
    Peer(info, addr, true, 0, None)
  }

  /** The peers a broadcast goes to: the connected ones. */
  function ConnectedPeers(peers: map<Uuid, Peer>): (r: set<Uuid>)
    ensures forall id :: id in r <==> id in peers && peers[id].connected
  {
    set id | id in peers && peers[id].connected
  }

  /** Every peer is filed under its own ID. */
  predicate KeyedById(peers: map<Uuid, Peer>)
  {
    forall id :: id in peers ==> peers[id].info.id == id
  }

  // ----- Mixing -----

  /** `order` lists every key of the table exactly once: the table's iteration order. */
  predicate IsEnumeration(order: seq<Uuid>, keys: set<Uuid>)
  {
    (forall k :: 0 <= k < |order| ==> order[k] in keys)
    && (forall id :: id in keys ==> id in order)
    && (forall j, k :: 0 <= j < k < |order| ==> order[j] != order[k])
  }

  /** The buffers `mix_audio` collects: the latest audio of each peer that has some, in `order`. */
  function AudioBuffers(peers: map<Uuid, Peer>, order: seq<Uuid>): (r: seq<seq<real>>)
    ensures |r| <= |order|
    ensures r == [] <==> forall k :: 0 <= k < |order| && order[k] in peers ==> peers[order[k]].lastAudio.None?
  {
    if order == [] then []
    else
      var rest := AudioBuffers(peers, order[1..]);
      assert forall k :: 1 <= k < |order| ==> order[k] == order[1..][k - 1];
      if order[0] in peers && peers[order[0]].lastAudio.Some? then [peers[order[0]].lastAudio.value] + rest
      else rest
  }

  /** The length of the longest buffer (0 when there is none). */
  function MaxLen(buffers: seq<seq<real>>): (r: nat)
    ensures forall k :: 0 <= k < |buffers| ==> |buffers[k]| <= r
    ensures buffers == [] ==> r == 0
    ensures buffers != [] ==> exists k :: 0 <= k < |buffers| && |buffers[k]| == r
  {
    if buffers == [] then 0
    else
      var rest := MaxLen(buffers[1..]);
      assert forall k :: 1 <= k < |buffers| ==> buffers[k] == buffers[1..][k - 1];
      if |buffers[0]| >= rest then |buffers[0]| else rest
  }

  /** What the buffers put into slot i of the mix: each buffer long enough adds its sample over n. */
  function Contribution(buffers: seq<seq<real>>, i: nat, n: real): real
    requires n != 0.0
  {
    if buffers == [] then 0.0
    else
      var last := buffers[|buffers| - 1];
      Contribution(buffers[..|buffers| - 1], i, n) + (if i < |last| then last[i] / n else 0.0)
  }

  function Abs(x: real): real
  {
    if x < 0.0 then -x else x
  }

  /** `f32::signum` away from zero and NaN. */
  function Signum(x: real): real
  {
    if x < 0.0 then -1.0 else 1.0
  }

  /**
   * `soft_clip`: values under 0.5 in magnitude pass unchanged; larger ones are bent towards 1
   * by `1 - e^(-4(|x| - 0.5)) / 2`, keeping their sign. The exponential is a parameter.
   */
  function SoftClip(x: real, exp: real -> real): (r: real)
    ensures Abs(x) < 0.5 ==> r == x
  {
    if Abs(x) < 0.5 then x else Signum(x) * (1.0 - exp(-4.0 * (Abs(x) - 0.5)) * 0.5)
  }

  /** What the clip needs of the exponential: 1 at 0, strictly between 0 and 1 below it. */
  ghost predicate ExpBelowOne(exp: real -> real)
  {
    exp(0.0) == 1.0 && forall t :: t < 0.0 ==> 0.0 < exp(t) < 1.0
  }

  /**
   * Above the threshold the clip keeps the sign and lands in [0.5, 1), strictly above 0.5 once
   * the input is; so no output ever reaches full scale.
   */
  lemma SoftClipCompresses(x: real, exp: real -> real)
    requires ExpBelowOne(exp)
    ensures Abs(SoftClip(x, exp)) < 1.0
    ensures Abs(x) >= 0.5 ==> 0.5 <= Abs(SoftClip(x, exp)) && (x < 0.0 <==> SoftClip(x, exp) < 0.0)
    ensures Abs(x) > 0.5 ==> Abs(SoftClip(x, exp)) > 0.5
  {
    if Abs(x) >= 0.5 {
      var t := -4.0 * (Abs(x) - 0.5);
      assert 0.0 < exp(t) <= 1.0;
      if Abs(x) > 0.5 {
        assert t < 0.0;
        assert exp(t) < 1.0;
      }
    }
  }

  /**
   * `mix_audio`: nothing when no peer has audio or the longest buffer is empty; otherwise one
   * slot per sample of the longest buffer, each the clipped sum of the buffers' samples there,
   * every one divided by the number of buffers.
   */
  method MixAudio(peers: map<Uuid, Peer>, order: seq<Uuid>, exp: real -> real) returns (mixed: seq<real>)
    requires IsEnumeration(order, peers.Keys)
    ensures var buffers := AudioBuffers(peers, order);
      |mixed| == MaxLen(buffers)
      && forall i :: 0 <= i < |mixed| ==> mixed[i] == SoftClip(Contribution(buffers, i, |buffers| as real), exp)
  {
    var buffers := AudioBuffers(peers, order);
    if |buffers| == 0 {
      return [];
    }
    var maxLen := MaxLen(buffers);
    if maxLen == 0 {
      return [];
    }
    var n := |buffers| as real;
    mixed := Accumulate(buffers, maxLen, n);
    var i := 0;
    while i < maxLen
      invariant 0 <= i <= maxLen == |mixed|
      invariant forall j :: 0 <= j < i ==> mixed[j] == SoftClip(Contribution(buffers, j, n), exp)
      invariant forall j :: i <= j < maxLen ==> mixed[j] == Contribution(buffers, j, n)
    {
      mixed := mixed[i := SoftClip(mixed[i], exp)];
      i := i + 1;
    }
  }

  /** The `for buffer in &audio_buffers` loop: add every buffer's samples over n into the slots. */
  method Accumulate(buffers: seq<seq<real>>, maxLen: nat, n: real) returns (mixed: seq<real>)
    requires n != 0.0
    requires forall k :: 0 <= k < |buffers| ==> |buffers[k]| <= maxLen
    ensures |mixed| == maxLen
    ensures forall i :: 0 <= i < maxLen ==> mixed[i] == Contribution(buffers, i, n)
  {
    mixed := seq(maxLen, _ => 0.0);
    var k := 0;
    while k < |buffers|
      invariant 0 <= k <= |buffers|
      invariant |mixed| == maxLen
      invariant forall i :: 0 <= i < maxLen ==> mixed[i] == Contribution(buffers[..k], i, n)
    {
      var buffer := buffers[k];
      var j := 0;
      while j < |buffer|
        invariant 0 <= j <= |buffer| <= maxLen == |mixed|
        invariant forall i :: 0 <= i < maxLen ==>
          mixed[i] == Contribution(buffers[..k], i, n) + (if i < j then buffer[i] / n else 0.0)
      {
        mixed := mixed[j := mixed[j] + buffer[j] / n];
        j := j + 1;
      }
      assert buffers[..k + 1][..k] == buffers[..k];
      k := k + 1;
    }
    assert buffers[..k] == buffers;
  }

  /** With no peer holding audio there is nothing to mix. */
  lemma SilentWithoutAudio(peers: map<Uuid, Peer>, order: seq<Uuid>)
    requires IsEnumeration(order, peers.Keys)
    ensures AudioBuffers(peers, order) == [] <==> forall id :: id in peers ==> peers[id].lastAudio.None?
  {
  }

  /** A slot that every buffer holds with the same sample x mixes to x: the mix is an average. */
  lemma {:induction false} ContributionOfEqualSamples(buffers: seq<seq<real>>, i: nat, x: real)
    requires forall k :: 0 <= k < |buffers| ==> i < |buffers[k]| && buffers[k][i] == x
    ensures buffers != [] ==> Contribution(buffers, i, |buffers| as real) == x
    ensures forall n: real :: n != 0.0 ==> Contribution(buffers, i, n) == |buffers| as real * x / n
  {
    if buffers != [] {
      var init := buffers[..|buffers| - 1];
      ContributionOfEqualSamples(init, i, x);
      forall n: real | n != 0.0
        ensures Contribution(buffers, i, n) == |buffers| as real * x / n
      {
        assert Contribution(init, i, n) == |init| as real * x / n;
      }
    }
  }

  /** A lone source whose samples all sit below 0.5 in magnitude comes out of the mix unchanged. */
  lemma QuietSoloPassesThrough(b: seq<real>, exp: real -> real)
    requires forall i :: 0 <= i < |b| ==> Abs(b[i]) < 0.5
    ensures forall i :: 0 <= i < |b| ==> SoftClip(Contribution([b], i, 1.0), exp) == b[i]
  {
    forall i | 0 <= i < |b|
      ensures SoftClip(Contribution([b], i, 1.0), exp) == b[i]
    {
      assert [b][..0] == [];
    }
  }

  // ----- The session -----

  /** `Session`, less its socket, its callbacks and its receive loop. */
  class Session {
    var peers: map<Uuid, Peer>
    const config: SessionConfig
    var running: bool
    var sequence: u32
    /** Whether a receive loop has been spawned and not yet aborted. */
    var receiveLoop: bool
    const localPeerId: Uuid

    /** The table stays within capacity and files each peer under its ID. */
    predicate Valid()
      reads this
    {
      |peers| <= config.maxPeers && KeyedById(peers)
    }

    /** `Session::new` once the socket is bound; the fresh `Uuid::new_v4` is a parameter. */
    constructor(config: SessionConfig, localPeerId: Uuid)
      ensures Valid()
      ensures this.config == config && this.localPeerId == localPeerId
      ensures peers == map[] && !running && sequence == 0 && !receiveLoop
    {
      this.config := config;
      this.localPeerId := localPeerId;
      peers := map[];
      running := false;
      sequence := 0;
      receiveLoop := false;
    }

    /**
     * `add_peer`: refused with SessionFull once the table holds `max_peers`, whether or not the
     * peer is already in it; a peer already present is accepted and left as it was; a new one is
     * stored connected, with no packets and no audio.
     */
    method AddPeer(info: Signaling.PeerInfo, addr: SocketAddr) returns (r: Result<Unit, NetworkError>)
      requires Valid()
      modifies this
      ensures Valid()
      ensures |old(peers)| >= config.maxPeers ==> r == Err(SessionFull) && peers == old(peers)
      ensures |old(peers)| < config.maxPeers && info.id in old(peers) ==> r == Ok(Unit) && peers == old(peers)
      ensures |old(peers)| < config.maxPeers && info.id !in old(peers) ==>
        r == Ok(Unit) && peers == old(peers)[info.id := NewPeer(info, addr)]
      ensures running == old(running) && sequence == old(sequence) && receiveLoop == old(receiveLoop)
    {
      if |peers| >= config.maxPeers {
        return Err(SessionFull);
      }
      if info.id in peers {
        return Ok(Unit);
      }
      peers := peers[info.id := NewPeer(info, addr)];
      assert peers.Keys == old(peers).Keys + {info.id};
      return Ok(Unit);
    }

    /** `remove_peer`: takes out that one peer, if present. */
    method RemovePeer(peerId: Uuid)
      requires Valid()
      modifies this
      ensures Valid()
      ensures peers == old(peers) - {peerId}
      ensures running == old(running) && sequence == old(sequence) && receiveLoop == old(receiveLoop)
    {
      var before := peers;
      peers := peers - {peerId};
      assert peers.Keys <= before.Keys;
      SubsetSize(peers.Keys, before.Keys);
    }

    /** `start`: a session already running is left alone; otherwise it runs and spawns its receive loop. */
    method Start()
      modifies this
      ensures running
      ensures old(running) ==> receiveLoop == old(receiveLoop)
      ensures !old(running) ==> receiveLoop
      ensures peers == old(peers) && sequence == old(sequence)
    {
      if running {
        return;
      }
      running := true;
      receiveLoop := true;
    }

    /** `stop`: clears the running flag and aborts the receive loop. */
    method Stop()
      modifies this
      ensures !running && !receiveLoop
      ensures peers == old(peers) && sequence == old(sequence)
    {
      running := false;
      receiveLoop := false;
    }

    /**
     * `broadcast_audio`: refused with NotConnected unless running; otherwise the samples (f32
     * bit patterns) go little-endian into one audio packet under the next sequence, sent to every
     * connected peer. Failed sends are only logged, so the result is Ok.
     */
    method BroadcastAudio(data: seq<u32>, timestamp: u32)
      returns (r: Result<Unit, NetworkError>, packet: Option<Packet.Packet>, recipients: set<Uuid>)
      modifies this
      ensures !old(running) ==>
        r == Err(NotConnected) && packet == None && recipients == {} && sequence == old(sequence)
      ensures old(running) ==>
        r == Ok(Unit) && packet == Some(Packet.AudioPacket(old(sequence), timestamp, U32sLE(data)))
        && recipients == ConnectedPeers(peers) && sequence == WrappingAdd(old(sequence), 1)
      ensures peers == old(peers) && running == old(running) && receiveLoop == old(receiveLoop)
    {
      if !running {
        return Err(NotConnected), None, {};
      }
      var number := sequence;
      sequence := WrappingAdd(sequence, 1);
      packet := Some(Packet.AudioPacket(number, timestamp, U32sLE(data)));
      recipients := ConnectedPeers(peers);
      r := Ok(Unit);
    }

    /**
     * `send_audio_to`: a peer not in the table is reported as PeerNotFound with its ID's text and
     * uses no sequence; otherwise the packet is built under the next sequence and the socket's
     * result `sent` is returned. The running flag is not consulted.
     */
    method SendAudioTo(peerId: Uuid, data: seq<u32>, timestamp: u32, sent: Result<Unit, NetworkError>)
      returns (r: Result<Unit, NetworkError>, packet: Option<(SocketAddr, Packet.Packet)>)
      modifies this
      ensures peerId !in old(peers) ==>
        r == Err(PeerNotFound(Ids.UuidText(peerId))) && packet == None && sequence == old(sequence)
      ensures peerId in old(peers) ==>
        r == sent && sequence == WrappingAdd(old(sequence), 1)
        && packet == Some((old(peers)[peerId].addr, Packet.AudioPacket(old(sequence), timestamp, U32sLE(data))))
      ensures peers == old(peers) && running == old(running) && receiveLoop == old(receiveLoop)
    {
      if peerId !in peers {
        return Err(PeerNotFound(Ids.UuidText(peerId))), None;
      }
      var number := sequence;
      sequence := WrappingAdd(sequence, 1);
      packet := Some((peers[peerId].addr, Packet.AudioPacket(number, timestamp, U32sLE(data))));
      r := sent;
    }
  }

  lemma SubsetSize(a: set<Uuid>, b: set<Uuid>)
    requires a <= b
    ensures |a| <= |b|
  {
    assert b == a + (b - a);
  }

  /** A peer added and then removed leaves the table as it was. */
  lemma AddThenRemove(peers: map<Uuid, Peer>, info: Signaling.PeerInfo, addr: SocketAddr)
    requires info.id !in peers
    ensures peers[info.id := NewPeer(info, addr)] - {info.id} == peers
  {
  }
}
