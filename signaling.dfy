/**
 * The signalling server's rules (src/network/signaling.rs): address candidates and their
 * priorities, invite codes, and the room transitions a connection's messages cause.
 */
module Signaling {
  import opened Bytes
  import opened Ints
  import opened Wrappers
  import opened Net
  import Utf8
  import Collections
  import Ids

  const MAX_PEERS_PER_ROOM: nat := 10

  // ----- Address candidates -----

  datatype CandidateType = Host | ServerReflexive

  datatype AddressCandidate = AddressCandidate(address: SocketAddr, candidateType: CandidateType, priority: u32)

  const HOST_TYPE_PREFERENCE: nat := 126
  const SERVER_REFLEXIVE_TYPE_PREFERENCE: nat := 100

  /** The local preference: IPv6 just above IPv4. */
  function LocalPreference(address: SocketAddr): (r: nat)
    ensures r == if address.IsIpv6() then 0xFFFF else 0xFFFE
  {
    if address.IsIpv6() then 65535 else 65534
  }

  /**
   * `(type_pref << 24) | (local_pref << 8) | 255`, section 4.1.2.1 of RFC 5245 with component
   * ID 1. The three fields occupy disjoint bits, so the OR is their sum.
   */
  function Priority(typePreference: nat, localPreference: nat): (r: u32)
    requires typePreference < 0x100 && localPreference < 0x1_0000
    ensures r / 0x100_0000 == typePreference
    ensures (r / 0x100) % 0x1_0000 == localPreference
    ensures r % 0x100 == 255
  {
    typePreference * 0x100_0000 + localPreference * 0x100 + 255
  }

  /** `AddressCandidate::host`. */
  function HostCandidate(address: SocketAddr): (c: AddressCandidate)
    ensures c.address == address && c.candidateType == Host
    ensures c.priority == Priority(HOST_TYPE_PREFERENCE, LocalPreference(address))
  {
    AddressCandidate(address, Host, Priority(HOST_TYPE_PREFERENCE, LocalPreference(address)))
  }

  /** `AddressCandidate::server_reflexive`. */
  function ServerReflexiveCandidate(address: SocketAddr): (c: AddressCandidate)
    ensures c.address == address && c.candidateType == ServerReflexive
    ensures c.priority == Priority(SERVER_REFLEXIVE_TYPE_PREFERENCE, LocalPreference(address))
  {
    AddressCandidate(address, ServerReflexive, Priority(SERVER_REFLEXIVE_TYPE_PREFERENCE, LocalPreference(address)))
  }

  /** Every host candidate outranks every server-reflexive one, whatever their families. */
  lemma HostOutranksServerReflexive(a: SocketAddr, b: SocketAddr)
    ensures HostCandidate(a).priority > ServerReflexiveCandidate(b).priority
  {
  }

  /** Within one candidate type an IPv6 address outranks an IPv4 one. */
  lemma Ipv6OutranksIpv4(v6: SocketAddr, v4: SocketAddr)
    requires v6.IsIpv6() && !v4.IsIpv6()
    ensures HostCandidate(v6).priority > HostCandidate(v4).priority
    ensures ServerReflexiveCandidate(v6).priority > ServerReflexiveCandidate(v4).priority
  {
  }

  /** `candidates_to_addrs`: the addresses, in the candidates' order. */
  function Addresses(candidates: seq<AddressCandidate>): (r: seq<SocketAddr>)
    ensures |r| == |candidates|
    ensures forall i :: 0 <= i < |r| ==> r[i] == candidates[i].address
  {
    seq(|candidates|, i requires 0 <= i < |candidates| => candidates[i].address)
  }

  // ----- Sorting by priority -----

  /** Priorities never increase along `s`. */
  predicate SortedByPriority(s: seq<AddressCandidate>)
  {
    forall i, j :: 0 <= i < j < |s| ==> s[i].priority >= s[j].priority
  }

  /** The candidates of priority `p`, in order; a stable sort keeps each of these lists as it is. */
  function WithPriority(s: seq<AddressCandidate>, p: u32): seq<AddressCandidate>
  {
    if s == [] then []
    else if s[0].priority == p then [s[0]] + WithPriority(s[1..], p)
    else WithPriority(s[1..], p)
  }

  /** Put `x` before the first element it does not rank below; `x` came earlier in the input. */
  function Insert(x: AddressCandidate, t: seq<AddressCandidate>): seq<AddressCandidate>
  {
    if t == [] || t[0].priority <= x.priority then [x] + t
    else [t[0]] + Insert(x, t[1..])
  }

  lemma {:induction false} InsertPermutes(x: AddressCandidate, t: seq<AddressCandidate>)
    ensures multiset(Insert(x, t)) == multiset([x] + t)
  {
    if t != [] && t[0].priority > x.priority {
      InsertPermutes(x, t[1..]);
      assert t == [t[0]] + t[1..];
      assert multiset([x] + t) == multiset([x] + t[1..]) + multiset{t[0]};
    }
  }

  lemma {:induction false} InsertSorted(x: AddressCandidate, t: seq<AddressCandidate>)
    requires SortedByPriority(t)
    ensures SortedByPriority(Insert(x, t))
  {
    if t != [] && t[0].priority > x.priority {
      InsertSorted(x, t[1..]);
      InsertPermutes(x, t[1..]);
      var r := Insert(x, t[1..]);
      forall k | 0 <= k < |r|
        ensures t[0].priority >= r[k].priority
      {
        assert r[k] in multiset(r);
        assert r[k] in multiset([x] + t[1..]);
        assert r[k] == x || r[k] in t[1..];
      }
    }
  }

  lemma {:induction false} InsertStable(x: AddressCandidate, t: seq<AddressCandidate>, p: u32)
    ensures WithPriority(Insert(x, t), p) == WithPriority([x] + t, p)
  {
    assert ([x] + t)[1..] == t;
    if t != [] && t[0].priority > x.priority {
      InsertStable(x, t[1..], p);
      var r := Insert(x, t[1..]);
      assert ([t[0]] + r)[1..] == r;
      assert ([x] + t[1..])[1..] == t[1..];
    }
  }

  /**
   * `candidates.sort_by(|a, b| b.priority.cmp(&a.priority))`: highest priority first, and,
   * as Rust's sort is stable, candidates of equal priority in their original order.
   */
  function SortByPriority(s: seq<AddressCandidate>): (r: seq<AddressCandidate>)
    ensures |r| == |s|
    ensures SortedByPriority(r)
    ensures multiset(r) == multiset(s)
    ensures forall p :: WithPriority(r, p) == WithPriority(s, p)
  {
    if s == [] then []
    else
      var rest := SortByPriority(s[1..]);
      InsertSorted(s[0], rest);
      InsertPermutes(s[0], rest);
      assert |Insert(s[0], rest)| == |multiset(Insert(s[0], rest))| == |multiset([s[0]] + rest)|;
      assert s == [s[0]] + s[1..];
      forall p
        ensures WithPriority(Insert(s[0], rest), p) == WithPriority(s, p)
      {
        InsertStable(s[0], rest, p);
        assert ([s[0]] + rest)[1..] == rest;
      }
      Insert(s[0], rest)
  }

  lemma {:induction false} WithPriorityMember(s: seq<AddressCandidate>, p: u32, x: AddressCandidate)
    ensures x in WithPriority(s, p) <==> x in s && x.priority == p
  {
    if s != [] {
      WithPriorityMember(s[1..], p, x);
      assert s == [s[0]] + s[1..];
    }
  }

  /**
   * A sorted, stable order is unique: any sorting algorithm that is stable (as Rust's is) gives
   * exactly `SortByPriority`'s result.
   */
  lemma {:induction false} StableSortUnique(a: seq<AddressCandidate>, b: seq<AddressCandidate>)
    requires SortedByPriority(a) && SortedByPriority(b)
    requires forall p :: WithPriority(a, p) == WithPriority(b, p)
    ensures a == b
    decreases |a|
  {
    if a == [] {
      if b != [] {
        assert b[0] in WithPriority(b, b[0].priority) by { WithPriorityMember(b, b[0].priority, b[0]); }
        WithPriorityMember(a, b[0].priority, b[0]);
      }
    } else if b == [] {
      assert a[0] in WithPriority(a, a[0].priority) by { WithPriorityMember(a, a[0].priority, a[0]); }
      WithPriorityMember(b, a[0].priority, a[0]);
    } else {
      HeadsAgree(a, b);
      TailsAgree(a, b);
      assert SortedByPriority(a[1..]);
      assert SortedByPriority(b[1..]);
      StableSortUnique(a[1..], b[1..]);
      assert a == [a[0]] + a[1..] && b == [b[0]] + b[1..];
    }
  }

  /** Two sorted lists with the same candidates at every priority start with the same candidate. */
  lemma HeadsAgree(a: seq<AddressCandidate>, b: seq<AddressCandidate>)
    requires a != [] && b != []
    requires SortedByPriority(a) && SortedByPriority(b)
    requires forall p :: WithPriority(a, p) == WithPriority(b, p)
    ensures a[0] == b[0]
  {
    var pa, pb := a[0].priority, b[0].priority;
    WithPriorityMember(a, pa, a[0]);
    assert a[0] in WithPriority(b, pa);
    WithPriorityMember(b, pa, a[0]);
    WithPriorityMember(b, pb, b[0]);
    assert b[0] in WithPriority(a, pb);
    WithPriorityMember(a, pb, b[0]);
    var i :| 0 <= i < |b| && b[i] == a[0];
    var j :| 0 <= j < |a| && a[j] == b[0];
    assert pa == pb;
    assert WithPriority(a, pa) == [a[0]] + WithPriority(a[1..], pa);
    assert WithPriority(b, pa) == [b[0]] + WithPriority(b[1..], pa);
    assert a[0] == WithPriority(a, pa)[0] == WithPriority(b, pa)[0] == b[0];
  }

  /** Dropping the same first candidate from both keeps the candidates at every priority equal. */
  lemma TailsAgree(a: seq<AddressCandidate>, b: seq<AddressCandidate>)
    requires a != [] && b != [] && a[0] == b[0]
    requires forall p :: WithPriority(a, p) == WithPriority(b, p)
    ensures forall p :: WithPriority(a[1..], p) == WithPriority(b[1..], p)
  {
    var pa := a[0].priority;
    forall p
      ensures WithPriority(a[1..], p) == WithPriority(b[1..], p)
    {
      assert WithPriority(a, p) == WithPriority(b, p);
      if p == pa {
        assert WithPriority(a[1..], p) == WithPriority(a, p)[1..];
        assert WithPriority(b[1..], p) == WithPriority(b, p)[1..];
      }
    }
  }

  // ----- Peers -----

  /** A peer ID: a version-4 UUID, drawn by the caller. */
  type Uuid = Ids.Uuid

  datatype PeerInfo = PeerInfo(
    id: Uuid,
    name: string,
    candidates: seq<AddressCandidate>,
    publicAddr: Option<SocketAddr>,
    localAddr: Option<SocketAddr>)

  /** The legacy push: `addr` goes on the end only when it is given and not already listed. */
  function AppendIfAbsent(addrs: seq<SocketAddr>, addr: Option<SocketAddr>): (r: seq<SocketAddr>)
    ensures addr.Some? && addr.value !in addrs ==> r == addrs + [addr.value]
    ensures addr.None? || addr.value in addrs ==> r == addrs
    ensures |addrs| <= |r| <= |addrs| + 1 && r[..|addrs|] == addrs
    ensures forall a :: a in r <==> a in addrs || addr == Some(a)
  {
    if addr.Some? && addr.value !in addrs then addrs + [addr.value] else addrs
  }

  /**
   * `get_sorted_candidates`: the candidates' addresses, highest priority first, then the legacy
   * public and local addresses, each only when given and not yet in the list.
   */
  function SortedCandidates(peer: PeerInfo): (r: seq<SocketAddr>)
    ensures |peer.candidates| <= |r| <= |peer.candidates| + 2
    ensures r[..|peer.candidates|] == Addresses(SortByPriority(peer.candidates))
    ensures forall a :: a in r <==>
      (a in Addresses(peer.candidates) || peer.publicAddr == Some(a) || peer.localAddr == Some(a))
  {
    var addrs := Addresses(SortByPriority(peer.candidates));
    SortedAddressesSame(peer.candidates);
    var withPublic := AppendIfAbsent(addrs, peer.publicAddr);
    var r := AppendIfAbsent(withPublic, peer.localAddr);
    assert r[..|addrs|] == withPublic[..|addrs|];
    r
  }

  /** Sorting moves the candidates but keeps the set of their addresses. */
  lemma SortedAddressesSame(candidates: seq<AddressCandidate>)
    ensures forall a :: a in Addresses(SortByPriority(candidates)) <==> a in Addresses(candidates)
  {
    var sorted := SortByPriority(candidates);
    AddressesOfPermutation(sorted, candidates);
    AddressesOfPermutation(candidates, sorted);
  }

  /** An address of one list of candidates is an address of any permutation of it. */
  lemma AddressesOfPermutation(s: seq<AddressCandidate>, t: seq<AddressCandidate>)
    requires multiset(s) == multiset(t)
    ensures forall a :: a in Addresses(s) ==> a in Addresses(t)
  {
    forall a | a in Addresses(s)
      ensures a in Addresses(t)
    {
      var i :| 0 <= i < |s| && Addresses(s)[i] == a;
      assert s[i] in multiset(t);
      var j :| 0 <= j < |t| && t[j] == s[i];
      assert Addresses(t)[j] == a;
    }
  }

  /** In the sorted list, a candidate's address comes no later than any lower-priority one's. */
  lemma SortedCandidatesRanked(peer: PeerInfo, i: nat, j: nat)
    requires i < j < |peer.candidates|
    ensures var sorted := SortByPriority(peer.candidates);
      SortedCandidates(peer)[i] == sorted[i].address && SortedCandidates(peer)[j] == sorted[j].address
      && sorted[i].priority >= sorted[j].priority
  {
    var r := SortedCandidates(peer);
    assert r[i] == r[..|peer.candidates|][i];
    assert r[j] == r[..|peer.candidates|][j];
  }

  // ----- Invite codes -----

  /** `INVITE_CODE_CHARS`: A-Z and 2-9 without the look-alikes 0, O, I, 1 and L. */
  const INVITE_CODE_CHARS: string := "ABCDEFGHJKMNPQRSTUVWXYZ23456789"
  const INVITE_CODE_LENGTH: nat := 6

  /** `INVITE_CODE_CHARS.contains(&(c as u8))`: the cast keeps only the low byte of the code point. */
  predicate InviteChar(c: char)
  {
    AsU8(c as int) as char in INVITE_CODE_CHARS
  }

  /** `is_invite_code_format`: six bytes of UTF-8, and every character's low byte in the alphabet. */
  predicate IsInviteCodeFormat(s: string)
    ensures IsInviteCodeFormat(s) ==> 0 < |s| <= INVITE_CODE_LENGTH
  {
    LenAtLeastCount(s);
    Utf8.Len(s) == INVITE_CODE_LENGTH && forall i :: 0 <= i < |s| ==> InviteChar(s[i])
  }

  /** `generate_invite_code`, with the six random indices into the alphabet as its input. */
  function GenerateInviteCode(indices: seq<nat>): (code: string)
    requires |indices| == INVITE_CODE_LENGTH
    requires forall k :: 0 <= k < |indices| ==> indices[k] < |INVITE_CODE_CHARS|
    ensures |code| == INVITE_CODE_LENGTH
    ensures forall k :: 0 <= k < |code| ==> code[k] == INVITE_CODE_CHARS[indices[k]]
  {
    seq(INVITE_CODE_LENGTH, k requires 0 <= k < INVITE_CODE_LENGTH => INVITE_CODE_CHARS[indices[k]])
  }

  lemma AlphabetIsAscii()
    ensures |INVITE_CODE_CHARS| == 31
    ensures forall i :: 0 <= i < |INVITE_CODE_CHARS| ==> INVITE_CODE_CHARS[i] as int < 0x80
  {
  }

  /** A string of single-byte characters is as many bytes long as it is characters. */
  lemma {:induction false} AsciiLen(s: string)
    requires forall i :: 0 <= i < |s| ==> s[i] as int < 0x80
    ensures Utf8.Len(s) == |s|
  {
    if s != [] {
      AsciiLen(s[1..]);
    }
  }

  /** A string of `|s|` characters and `|s|` bytes has only single-byte characters. */
  lemma {:induction false} LenEqualMeansAscii(s: string)
    requires Utf8.Len(s) == |s|
    ensures forall i :: 0 <= i < |s| ==> s[i] as int < 0x80
  {
    if s != [] {
      LenAtLeastCount(s[1..]);
      LenEqualMeansAscii(s[1..]);
      forall i | 0 <= i < |s|
        ensures s[i] as int < 0x80
      {
        if i > 0 {
          assert s[i] == s[1..][i - 1];
        }
      }
    }
  }

  lemma {:induction false} LenAtLeastCount(s: string)
    ensures Utf8.Len(s) >= |s|
  {
    if s != [] {
      LenAtLeastCount(s[1..]);
    }
  }

  /** Every generated code satisfies the format check. */
  lemma GeneratedCodeHasFormat(indices: seq<nat>)
    requires |indices| == INVITE_CODE_LENGTH
    requires forall k :: 0 <= k < |indices| ==> indices[k] < |INVITE_CODE_CHARS|
    ensures IsInviteCodeFormat(GenerateInviteCode(indices))
  {
    var code := GenerateInviteCode(indices);
    AlphabetIsAscii();
    AsciiLen(code);
  }

  /** Conversely, every string of six characters that passes the check is a code the generator can draw. */
  lemma FormatCodeIsGeneratable(s: string)
    requires IsInviteCodeFormat(s) && |s| == INVITE_CODE_LENGTH
    ensures exists indices: seq<nat> ::
      |indices| == INVITE_CODE_LENGTH
      && (forall k :: 0 <= k < |indices| ==> indices[k] < |INVITE_CODE_CHARS|)
      && GenerateInviteCode(indices) == s
  {
    LenEqualMeansAscii(s);
    var indices := seq(INVITE_CODE_LENGTH, k requires 0 <= k < INVITE_CODE_LENGTH => IndexIn(s[k], INVITE_CODE_CHARS));
    assert GenerateInviteCode(indices) == s;
  }

  /** Where a character first occurs in a string. */
  function IndexIn(c: char, s: string): (i: nat)
    requires c in s
    ensures i < |s| && s[i] == c
  {
    if s[0] == c then 0 else 1 + IndexIn(c, s[1..])
  }

  /**
   * The cast aliases wider characters: U+0141 has low byte 0x41, 'A', and takes two bytes, so
   * this five-character string passes the six-byte check.
   */
  lemma InviteFormatAliasesWideCharacters()
    ensures IsInviteCodeFormat(['\U{0141}', 'B', 'C', 'D', '2'])
  {
    var s := ['\U{0141}', 'B', 'C', 'D', '2'];
    assert Utf8.Len(s) == 2 + Utf8.Len(s[1..]);
    assert Utf8.Len(s[1..]) == 4;
  }

  /** On single-byte characters the cast changes nothing: the check is alphabet membership. */
  lemma AsciiInviteChar(c: char)
    requires c as int < 0x80
    ensures InviteChar(c) <==> c in INVITE_CODE_CHARS
  {
  }

  /** Lower-case letters and the look-alikes 0, O, I, 1 and L are outside the alphabet. */
  lemma LookAlikesExcluded()
    ensures 'a' !in INVITE_CODE_CHARS
    ensures '0' !in INVITE_CODE_CHARS && 'O' !in INVITE_CODE_CHARS && 'I' !in INVITE_CODE_CHARS
    ensures '1' !in INVITE_CODE_CHARS && 'L' !in INVITE_CODE_CHARS
  {
    assert forall i :: 0 <= i < |INVITE_CODE_CHARS| ==>
      var c := INVITE_CODE_CHARS[i];
      ('A' <= c <= 'Z' || '2' <= c <= '9') && c != 'O' && c != 'I' && c != 'L';
  }

  /** A six-character code with a look-alike or a lower-case letter in it fails the check. */
  lemma InviteFormatRejects(s: string, i: nat)
    requires |s| == INVITE_CODE_LENGTH && i < |s|
    requires s[i] in {'a', '0', 'O', 'I', '1', 'L'}
    ensures !IsInviteCodeFormat(s)
  {
    LookAlikesExcluded();
    AsciiInviteChar(s[i]);
  }

  // ----- Rooms and the messages that change them -----

  datatype RoomInfo = RoomInfo(id: string, name: string, peerCount: nat, maxPeers: nat, hasPassword: bool, inviteCode: string)

  /**
   * `SignalingMessage`. Lists the server builds by iterating a `HashMap` are held as sets: the
   * map's iteration order is not part of the model.
   */
  datatype SignalingMessage =
    | CreateRoom(roomName: string, password: Option<string>, peerName: string)
    | JoinRoom(roomId: string, password: Option<string>, peerName: string)
    | LeaveRoom
    | UpdatePeerInfo(candidates: seq<AddressCandidate>, publicAddr: Option<SocketAddr>, localAddr: Option<SocketAddr>)
    | ListRooms
    | RoomCreated(roomId: string, peerId: Uuid, inviteCode: string)
    | RoomJoined(roomId: string, peerId: Uuid, peers: set<PeerInfo>)
    | PeerJoined(peer: PeerInfo)
    | PeerLeft(peerId: Uuid)
    | PeerUpdated(peer: PeerInfo)
    | RoomList(rooms: set<RoomInfo>)
    | Error(message: string)
    | ChatMessage(senderId: string, senderName: string, content: string, timestamp: u64)

  /** `Room`; its broadcast channel is the `broadcasts` log of each step. */
  datatype Room = Room(id: string, name: string, password: Option<string>, peers: map<Uuid, PeerInfo>, inviteCode: string)

  type Rooms = map<string, Room>

  /** The per-connection variables of `handle_connection`: `current_room`, `current_peer_id`, and whose channel `broadcast_rx` listens to. */
  datatype Connection = Connection(currentRoom: Option<string>, currentPeerId: Option<Uuid>, subscription: Option<string>)

  const NEW_CONNECTION := Connection(None, None, None)

  /** A message sent on a room's broadcast channel. */
  datatype Broadcast = Broadcast(room: string, msg: SignalingMessage)

  /** The random values one message may draw: `generate_room_id`, `Uuid::new_v4` and the invite-code draws. */
  datatype Draws = Draws(roomId: string, peerId: Uuid, inviteCodes: seq<string>)

  /** The result of one message: new rooms and connection, the direct reply, and the broadcasts sent. */
  datatype Outcome = Outcome(rooms: Rooms, conn: Connection, reply: Option<SignalingMessage>, broadcasts: seq<Broadcast>)

  /** Rooms are stored under their own ID, hold between one and ten peers, and peers under their own ID. */
  predicate ValidRooms(rooms: Rooms)
  {
    forall k :: k in rooms ==>
      rooms[k].id == k && 0 < |rooms[k].peers| <= MAX_PEERS_PER_ROOM
      && forall p :: p in rooms[k].peers ==> rooms[k].peers[p].id == p
  }

  /** A peer as a room first records it: no candidates, no legacy addresses. */
  function NewPeer(id: Uuid, name: string): PeerInfo
  {
    PeerInfo(id, name, [], None, None)
  }

  function InviteCodesInUse(rooms: Rooms): set<string>
  {
    set k | k in rooms :: rooms[k].inviteCode
  }

  const MAX_ATTEMPTS: nat := 100

  /** The invite-code retry: from draw `k` on, the first draw no room uses, or draw 100 once 100 retries are spent. */
  function InviteCodeAfterRetries(taken: set<string>, draws: seq<string>, k: nat): (code: string)
    requires k <= MAX_ATTEMPTS < |draws|
    ensures code in draws[k..MAX_ATTEMPTS + 1]
    ensures (exists j :: k <= j <= MAX_ATTEMPTS && draws[j] !in taken) ==> code !in taken
    ensures forall j :: k <= j <= MAX_ATTEMPTS && (forall i :: k <= i < j ==> draws[i] in taken) && draws[j] !in taken ==> code == draws[j]
    decreases MAX_ATTEMPTS - k
  {
    if draws[k] !in taken || k == MAX_ATTEMPTS then draws[k]
    else
      var code := InviteCodeAfterRetries(taken, draws, k + 1);
      assert draws[k + 1..MAX_ATTEMPTS + 1] == draws[k..MAX_ATTEMPTS + 1][1..];
      code
  }

  /** The `while` loop of `CreateRoom` that redraws the invite code while a room already uses it. */
  method ChooseInviteCode(taken: set<string>, draws: seq<string>) returns (code: string)
    requires MAX_ATTEMPTS < |draws|
    ensures code == InviteCodeAfterRetries(taken, draws, 0)
  {
    code := draws[0];
    var attempts := 0;
    while code in taken && attempts < MAX_ATTEMPTS
      invariant attempts <= MAX_ATTEMPTS && code == draws[attempts]
      invariant InviteCodeAfterRetries(taken, draws, attempts) == InviteCodeAfterRetries(taken, draws, 0)
    {
      attempts := attempts + 1;
      code := draws[attempts];
    }
  }

  /**
   * The room a `JoinRoom` ID names: by invite code when the ID has the invite format, else by
   * room ID. When several rooms share a code, which one `find` meets first depends on the
   * map's iteration order; the model takes one of them.
   */
  ghost function LookupRoom(rooms: Rooms, roomId: string): (r: Option<string>)
    ensures r.Some? && IsInviteCodeFormat(roomId) ==> exists k :: k in rooms && rooms[k].inviteCode == roomId && rooms[k].id == r.value
    ensures r.Some? && !IsInviteCodeFormat(roomId) ==> r.value == roomId && roomId in rooms
    ensures r.None? <==> if IsInviteCodeFormat(roomId) then forall k :: k in rooms ==> rooms[k].inviteCode != roomId else roomId !in rooms
  {
    if IsInviteCodeFormat(roomId) then
      if exists k :: k in rooms && rooms[k].inviteCode == roomId then
        var k :| k in rooms && rooms[k].inviteCode == roomId;
        Some(rooms[k].id)
      else None
    else if roomId in rooms then Some(roomId)
    else None
  }

  /** Take `peerId` out of room `roomId`, announce it, and drop the room once empty (`LeaveRoom` and the disconnect cleanup). */
  function RemovePeer(rooms: Rooms, roomId: string, peerId: Uuid): (r: (Rooms, seq<Broadcast>))
    ensures roomId !in rooms ==> r == (rooms, [])
    ensures r.0.Keys <= rooms.Keys
    ensures roomId in r.0 ==> peerId !in r.0[roomId].peers
    ensures forall k :: k in rooms && k != roomId ==> k in r.0 && r.0[k] == rooms[k]
  {
    if roomId in rooms then
      var room := rooms[roomId];
      var peers := room.peers - {peerId};
      var rest := if |peers| == 0 then rooms - {roomId} else rooms[roomId := room.(peers := peers)];
      (rest, [Broadcast(roomId, PeerLeft(peerId))])
    else (rooms, [])
  }

  function Info(room: Room): RoomInfo
  {
    RoomInfo(room.id, room.name, |room.peers|, MAX_PEERS_PER_ROOM, room.password.Some?, room.inviteCode)
  }

  function RoomInfos(rooms: Rooms): set<RoomInfo>
  {
    set k | k in rooms :: Info(rooms[k])
  }

  /** `JoinRoom`: find the room, check the password and the capacity, then add a fresh peer. */
  ghost function Join(rooms: Rooms, conn: Connection, roomId: string, password: Option<string>, peerName: string, peerId: Uuid): (o: Outcome)
    ensures o.reply.Some? && (o.reply.value.Error? || o.reply.value.RoomJoined?)
    ensures o.reply.value.Error? <==> o.broadcasts == []
    ensures o.reply.value.Error? ==> o.rooms == rooms && o.conn == conn
    ensures o.reply.value.RoomJoined? ==> o.rooms.Keys == rooms.Keys && o.conn.currentPeerId == Some(peerId)
  {
    var found := LookupRoom(rooms, roomId);
    if found.None? || found.value !in rooms then
      Outcome(rooms, conn, Some(Error("Room not found")), [])
    else
      var key := found.value;
      var room := rooms[key];
      if room.password.Some? && room.password != password then
        Outcome(rooms, conn, Some(Error("Invalid password")), [])
      else if |room.peers| >= MAX_PEERS_PER_ROOM then
        Outcome(rooms, conn, Some(Error("Room is full")), [])
      else
        var peer := NewPeer(peerId, peerName);
        Outcome(
          rooms[key := room.(peers := room.peers[peerId := peer])],
          Connection(Some(room.id), Some(peerId), Some(key)),
          Some(RoomJoined(room.id, peerId, room.peers.Values)),
          [Broadcast(key, PeerJoined(peer))])
  }

  /** `process_message`: one message from a connection, against the server's rooms. */
  ghost function Process(rooms: Rooms, conn: Connection, msg: SignalingMessage, draws: Draws): (o: Outcome)
    requires msg.CreateRoom? ==> MAX_ATTEMPTS < |draws.inviteCodes|
    ensures o.rooms != rooms ==> msg.CreateRoom? || msg.JoinRoom? || msg.LeaveRoom? || msg.UpdatePeerInfo?
    ensures o.reply.Some? <==> msg.CreateRoom? || msg.JoinRoom? || msg.ListRooms?
    ensures o.broadcasts != [] ==> msg.JoinRoom? || msg.LeaveRoom? || msg.UpdatePeerInfo? || msg.ChatMessage?
    ensures forall b :: b in o.broadcasts ==> b.room in rooms
  {
    match msg
    case CreateRoom(roomName, password, peerName) =>
      var code := InviteCodeAfterRetries(InviteCodesInUse(rooms), draws.inviteCodes, 0);
      var room := Room(draws.roomId, roomName, password, map[draws.peerId := NewPeer(draws.peerId, peerName)], code);
      Outcome(
        rooms[draws.roomId := room],
        Connection(Some(draws.roomId), Some(draws.peerId), Some(draws.roomId)),
        Some(RoomCreated(draws.roomId, draws.peerId, code)),
        [])
    case JoinRoom(roomId, password, peerName) =>
      Join(rooms, conn, roomId, password, peerName, draws.peerId)
    case LeaveRoom =>
      // Both `take()`s run before the match, so both fields are cleared in every case.
      var cleared := conn.(currentRoom := None, currentPeerId := None);
      if conn.currentRoom.Some? && conn.currentPeerId.Some? then
        var (rest, sent) := RemovePeer(rooms, conn.currentRoom.value, conn.currentPeerId.value);
        Outcome(rest, cleared.(subscription := None), None, sent)
      else Outcome(rooms, cleared, None, [])
    case UpdatePeerInfo(candidates, publicAddr, localAddr) =>
      if conn.currentRoom.Some? && conn.currentPeerId.Some?
        && conn.currentRoom.value in rooms && conn.currentPeerId.value in rooms[conn.currentRoom.value].peers
      then
        var key := conn.currentRoom.value;
        var room := rooms[key];
        var before := room.peers[conn.currentPeerId.value];
        var peer := before.(candidates := if candidates == [] then before.candidates else candidates,
                         publicAddr := publicAddr, localAddr := localAddr);
        Outcome(rooms[key := room.(peers := room.peers[conn.currentPeerId.value := peer])], conn, None,
                [Broadcast(key, PeerUpdated(peer))])
      else Outcome(rooms, conn, None, [])
    case ListRooms =>
      Outcome(rooms, conn, Some(RoomList(RoomInfos(rooms))), [])
    case ChatMessage(_, _, _, _) =>
      if conn.currentRoom.Some? && conn.currentRoom.value in rooms then
        Outcome(rooms, conn, None, [Broadcast(conn.currentRoom.value, msg)])
      else Outcome(rooms, conn, None, [])
    case _ =>
      Outcome(rooms, conn, None, [])
  }

  /** The cleanup when a connection ends: leave the current room as `LeaveRoom` does. */
  function Disconnect(rooms: Rooms, conn: Connection): (r: (Rooms, seq<Broadcast>))
    ensures conn.currentRoom.None? || conn.currentPeerId.None? ==> r == (rooms, [])
    ensures r.0.Keys <= rooms.Keys
    ensures conn.currentRoom.Some? && conn.currentPeerId.Some? && conn.currentRoom.value in r.0
      ==> conn.currentPeerId.value !in r.0[conn.currentRoom.value].peers
  {
    if conn.currentRoom.Some? && conn.currentPeerId.Some? then
      RemovePeer(rooms, conn.currentRoom.value, conn.currentPeerId.value)
    else (rooms, [])
  }

  /** A connection forwards every broadcast except the announcements of its own peer. */
  predicate ShouldForward(conn: Connection, msg: SignalingMessage)
    ensures !ShouldForward(conn, msg) ==> (msg.PeerJoined? || msg.PeerUpdated?) && conn.currentPeerId == Some(msg.peer.id)
  {
    match msg
    case PeerJoined(peer) => Some(peer.id) != conn.currentPeerId
    case PeerUpdated(peer) => Some(peer.id) != conn.currentPeerId
    case _ => true
  }

  // ----- What the transitions promise -----

  /** Removing a peer leaves every other room alone, takes the peer out, and drops the room exactly when it empties. */
  lemma RemovePeerEffect(rooms: Rooms, roomId: string, peerId: Uuid)
    requires roomId in rooms
    ensures var (rest, sent) := RemovePeer(rooms, roomId, peerId);
      sent == [Broadcast(roomId, PeerLeft(peerId))]
      && (roomId in rest <==> rooms[roomId].peers.Keys - {peerId} != {})
      && (roomId in rest ==> rest[roomId].peers == rooms[roomId].peers - {peerId})
      && forall k :: k != roomId ==> (k in rest <==> k in rooms) && (k in rest ==> rest[k] == rooms[k])
  {
    var peers := rooms[roomId].peers - {peerId};
    assert peers.Keys == rooms[roomId].peers.Keys - {peerId};
    assert |peers| == |peers.Keys|;
  }

  /** `LeaveRoom` in a room removes the connection's peer as `RemovePeer` does and forgets the room and the subscription. */
  lemma LeaveRoomLeaves(rooms: Rooms, conn: Connection, draws: Draws)
    requires conn.currentRoom.Some? && conn.currentPeerId.Some?
    ensures var o := Process(rooms, conn, LeaveRoom, draws);
      (o.rooms, o.broadcasts) == RemovePeer(rooms, conn.currentRoom.value, conn.currentPeerId.value)
      && o.conn == NEW_CONNECTION && o.reply.None?
  {
  }

  /** `LeaveRoom` outside a room changes no room and sends nothing; it still clears both IDs. */
  lemma LeaveOutsideRoom(rooms: Rooms, conn: Connection, draws: Draws)
    requires conn.currentRoom.None? || conn.currentPeerId.None?
    ensures var o := Process(rooms, conn, LeaveRoom, draws);
      o.rooms == rooms && o.broadcasts == [] && o.reply.None?
      && o.conn == conn.(currentRoom := None, currentPeerId := None)
  {
  }

  /** A connection that ends leaves its room exactly as `LeaveRoom` would. */
  lemma DisconnectIsLeave(rooms: Rooms, conn: Connection, draws: Draws)
    ensures var o := Process(rooms, conn, LeaveRoom, draws);
      Disconnect(rooms, conn) == (o.rooms, o.broadcasts)
  {
  }

  /**
   * A `JoinRoom` that fails names the first check it fails (room not found, then a password
   * that differs from the room's, then ten peers already) and changes nothing.
   */
  lemma JoinRejected(rooms: Rooms, conn: Connection, roomId: string, password: Option<string>, peerName: string, draws: Draws)
    ensures var o := Process(rooms, conn, JoinRoom(roomId, password, peerName), draws);
      var found := LookupRoom(rooms, roomId);
      (found.None? ==> o == Outcome(rooms, conn, Some(Error("Room not found")), []))
      && (found.Some? && found.value in rooms ==>
            var room := rooms[found.value];
            (room.password.Some? && room.password != password ==>
               o == Outcome(rooms, conn, Some(Error("Invalid password")), []))
            && (!(room.password.Some? && room.password != password) && |room.peers| >= MAX_PEERS_PER_ROOM ==>
               o == Outcome(rooms, conn, Some(Error("Room is full")), [])))
  {
  }

  /**
   * A `JoinRoom` that passes the checks adds exactly the new peer, answers with the peers
   * present before it (so not the joiner), announces the joiner to the room, and makes the
   * room the connection's own.
   */
  lemma JoinAdmits(rooms: Rooms, conn: Connection, roomId: string, password: Option<string>, peerName: string, draws: Draws)
    requires ValidRooms(rooms)
    requires LookupRoom(rooms, roomId).Some?
    requires var key := LookupRoom(rooms, roomId).value;
      key in rooms
      && !(rooms[key].password.Some? && rooms[key].password != password)
      && |rooms[key].peers| < MAX_PEERS_PER_ROOM
      && draws.peerId !in rooms[key].peers
    ensures var key := LookupRoom(rooms, roomId).value;
      var o := Process(rooms, conn, JoinRoom(roomId, password, peerName), draws);
      var peer := NewPeer(draws.peerId, peerName);
      o.reply == Some(RoomJoined(key, draws.peerId, rooms[key].peers.Values))
      && peer !in rooms[key].peers.Values
      && o.rooms[key].peers == rooms[key].peers[draws.peerId := peer]
      && |o.rooms[key].peers| == |rooms[key].peers| + 1
      && o.broadcasts == [Broadcast(key, PeerJoined(peer))]
      && o.conn == Connection(Some(key), Some(draws.peerId), Some(key))
      && forall k :: k != key ==> (k in o.rooms <==> k in rooms) && (k in o.rooms ==> o.rooms[k] == rooms[k])
  {
  }

  /**
   * Joining another room does not leave the current one: the connection's old peer stays in
   * its old room, which the connection no longer names.
   */
  lemma JoinKeepsPreviousRoom(rooms: Rooms, conn: Connection, roomId: string, password: Option<string>, peerName: string, draws: Draws)
    requires conn.currentRoom.Some? && conn.currentPeerId.Some?
    requires conn.currentRoom.value in rooms && conn.currentPeerId.value in rooms[conn.currentRoom.value].peers
    requires LookupRoom(rooms, roomId) != Some(conn.currentRoom.value)
    ensures var o := Process(rooms, conn, JoinRoom(roomId, password, peerName), draws);
      var previous := conn.currentRoom.value;
      previous in o.rooms && o.rooms[previous] == rooms[previous]
      && conn.currentPeerId.value in o.rooms[previous].peers
  {
  }

  /** A joiner's connection does not forward the announcement of its own arrival. */
  lemma JoinerSkipsOwnArrival(rooms: Rooms, conn: Connection, roomId: string, password: Option<string>, peerName: string, draws: Draws)
    ensures var o := Process(rooms, conn, JoinRoom(roomId, password, peerName), draws);
      forall b :: b in o.broadcasts ==> !ShouldForward(o.conn, b.msg)
  {
  }

  /** `ListRooms` reports each room once, with its peer count, capacity, password flag and code. */
  lemma ListRoomsReports(rooms: Rooms, conn: Connection, draws: Draws)
    ensures var o := Process(rooms, conn, ListRooms, draws);
      o.rooms == rooms && o.conn == conn && o.reply.Some? && o.reply.value.RoomList?
      && (forall k :: k in rooms ==> Info(rooms[k]) in o.reply.value.rooms)
      && (forall info :: info in o.reply.value.rooms ==> exists k :: k in rooms && info == Info(rooms[k]))
      && (forall info :: info in o.reply.value.rooms ==> info.maxPeers == MAX_PEERS_PER_ROOM)
  {
  }

  /**
   * `CreateRoom` makes a one-peer room under the drawn ID; when one of the 101 draws is free
   * its invite code differs from every other room's.
   */
  lemma CreateRoomEffect(rooms: Rooms, conn: Connection, roomName: string, password: Option<string>, peerName: string, draws: Draws)
    requires MAX_ATTEMPTS < |draws.inviteCodes|
    ensures var o := Process(rooms, conn, CreateRoom(roomName, password, peerName), draws);
      var room := o.rooms[draws.roomId];
      draws.roomId in o.rooms && room.peers == map[draws.peerId := NewPeer(draws.peerId, peerName)]
      && room.inviteCode in draws.inviteCodes[..MAX_ATTEMPTS + 1]
      && o.reply == Some(RoomCreated(draws.roomId, draws.peerId, room.inviteCode))
      && o.conn == Connection(Some(draws.roomId), Some(draws.peerId), Some(draws.roomId))
      && ((exists j :: 0 <= j <= MAX_ATTEMPTS && draws.inviteCodes[j] !in InviteCodesInUse(rooms)) ==>
            forall k :: k in o.rooms && k != draws.roomId ==> o.rooms[k].inviteCode != room.inviteCode)
  {
    var o := Process(rooms, conn, CreateRoom(roomName, password, peerName), draws);
    var code := o.rooms[draws.roomId].inviteCode;
    forall k | k in o.rooms && k != draws.roomId
      ensures (exists j :: 0 <= j <= MAX_ATTEMPTS && draws.inviteCodes[j] !in InviteCodesInUse(rooms)) ==>
        o.rooms[k].inviteCode != code
    {
      assert o.rooms[k] == rooms[k];
      assert rooms[k].inviteCode in InviteCodesInUse(rooms);
    }
  }

  /** Every message keeps the rooms well formed: under their IDs, between one and ten peers. */
  lemma ProcessKeepsValid(rooms: Rooms, conn: Connection, msg: SignalingMessage, draws: Draws)
    requires ValidRooms(rooms)
    requires msg.CreateRoom? ==> MAX_ATTEMPTS < |draws.inviteCodes|
    ensures ValidRooms(Process(rooms, conn, msg, draws).rooms)
  {
    var o := Process(rooms, conn, msg, draws);
    match msg
    case LeaveRoom =>
      if conn.currentRoom.Some? && conn.currentPeerId.Some? {
        RemoveKeepsValid(rooms, conn.currentRoom.value, conn.currentPeerId.value);
      }
    case JoinRoom(roomId, password, peerName) =>
      JoinKeepsValid(rooms, conn, roomId, password, peerName, draws.peerId);
    case UpdatePeerInfo(_, _, _) =>
      if conn.currentRoom.Some? && conn.currentPeerId.Some?
        && conn.currentRoom.value in rooms && conn.currentPeerId.value in rooms[conn.currentRoom.value].peers
      {
        var key, id := conn.currentRoom.value, conn.currentPeerId.value;
        var peers := o.rooms[key].peers;
        assert peers.Keys == rooms[key].peers.Keys;
        assert peers == rooms[key].peers[id := peers[id]];
        PeersKeepValid(rooms, key, peers);
      }
    case CreateRoom(_, _, _) =>
      assert |o.rooms[draws.roomId].peers| == 1;
    case _ =>
  }

  /** A join, admitted or refused, keeps the rooms well formed. */
  lemma JoinKeepsValid(rooms: Rooms, conn: Connection, roomId: string, password: Option<string>, peerName: string, peerId: Uuid)
    requires ValidRooms(rooms)
    ensures ValidRooms(Join(rooms, conn, roomId, password, peerName, peerId).rooms)
  {
    var found := LookupRoom(rooms, roomId);
    if found.Some? && found.value in rooms {
      var key := found.value;
      var room := rooms[key];
      if !(room.password.Some? && room.password != password) && |room.peers| < MAX_PEERS_PER_ROOM {
        var peers := room.peers[peerId := NewPeer(peerId, peerName)];
        assert |peers| <= |room.peers| + 1 by {
          assert peers.Keys == room.peers.Keys + {peerId};
        }
        assert |peers| > 0 by {
          assert peerId in peers.Keys;
        }
        PeersKeepValid(rooms, key, peers);
      }
    }
  }

  /** Giving one room a new peer table, non-empty, within the limit and keyed by peer ID, keeps the rooms well formed. */
  lemma PeersKeepValid(rooms: Rooms, key: string, peers: map<Uuid, PeerInfo>)
    requires ValidRooms(rooms) && key in rooms
    requires 0 < |peers| <= MAX_PEERS_PER_ROOM && forall p :: p in peers ==> peers[p].id == p
    ensures ValidRooms(rooms[key := rooms[key].(peers := peers)])
  {
  }

  /** Removing a peer keeps the rooms well formed, so the disconnect cleanup does too. */
  lemma RemoveKeepsValid(rooms: Rooms, roomId: string, peerId: Uuid)
    requires ValidRooms(rooms)
    ensures ValidRooms(RemovePeer(rooms, roomId, peerId).0)
  {
    if roomId in rooms {
      var peers := rooms[roomId].peers - {peerId};
      assert |peers| <= |rooms[roomId].peers| by {
        assert peers.Keys <= rooms[roomId].peers.Keys;
        Collections.SubsetCard(peers.Keys, rooms[roomId].peers.Keys);
      }
    }
  }
}
