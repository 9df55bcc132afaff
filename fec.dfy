/**
 * XOR forward error correction (src/network/fec.rs): every group of data packets is followed
 * by one FEC packet holding the column-wise XOR of the group, from which a receiver that lost
 * exactly one packet of the group rebuilds it.
 */
module Fec {
  import opened Bytes
  import opened Wrappers
  import opened Ints
  import Collections

  const FEC_GROUP_SIZE: nat := 4
  const MAX_GROUPS: nat := 16
  /** Group sequence, packet count and the reserved byte. */
  const FEC_HEADER_SIZE: nat := 6

  datatype FecPacket = FecPacket(groupSequence: u32, packetCount: byte, packetLengths: seq<u16>, fecData: bytes)

  /** Byte i of a packet, or 0 past its end: a short packet contributes nothing to a column. */
  function ByteAt(p: bytes, i: nat): byte
  {
    if i < |p| then p[i] else 0
  }

  /** The length of the longest packet, 0 for an empty group (`max().unwrap_or(0)`). */
  function MaxLen(group: seq<bytes>): (n: nat)
    ensures forall j :: 0 <= j < |group| ==> |group[j]| <= n
    ensures group == [] ==> n == 0
    ensures group != [] ==> exists j :: 0 <= j < |group| && |group[j]| == n
    decreases |group|
  {
    if group == [] then 0
    else
      var init := group[..|group| - 1];
      var m := MaxLen(init);
      var last := |group[|group| - 1]|;
      assert forall j :: 0 <= j < |init| ==> group[j] == init[j];
      if last <= m then
        if init != [] then
          var j :| 0 <= j < |init| && |init[j]| == m;
          assert |group[j]| == m;
          m
        else
          m
      else
        last
  }

  /** Byte i of every packet of the group XORed together, in group order. */
  function ColumnXor(group: seq<bytes>, i: nat): byte
    decreases |group|
  {
    if group == [] then 0
    else Xor8(ColumnXor(group[..|group| - 1], i), ByteAt(group[|group| - 1], i))
  }

  lemma ColumnXorStep(group: seq<bytes>, k: nat, i: nat)
    requires k < |group|
    ensures ColumnXor(group[..k + 1], i) == Xor8(ColumnXor(group[..k], i), ByteAt(group[k], i))
  {
    assert group[..k + 1][..k] == group[..k];
  }

  /**
   * The FEC packet of a group: the count and the lengths as the `as u8`/`as u16` casts leave
   * them, and one XOR column per byte of the longest packet.
   */
  function FecOf(group: seq<bytes>, groupSequence: u32): (p: FecPacket)
    ensures p.groupSequence == groupSequence
    ensures |group| < 0x100 ==> p.packetCount as int == |group|
    ensures |p.packetLengths| == |group|
    ensures forall j :: 0 <= j < |group| && |group[j]| < 0x1_0000 ==> p.packetLengths[j] as int == |group[j]|
    ensures |p.fecData| == MaxLen(group)
    ensures forall i :: 0 <= i < |p.fecData| ==> p.fecData[i] == ColumnXor(group, i)
  {
    FecPacket(
      groupSequence,
      AsU8(|group|),
      seq(|group|, j requires 0 <= j < |group| => AsU16(|group[j]|)),
      seq(MaxLen(group), i requires 0 <= i => ColumnXor(group, i)))
  }

  /** `FecEncoder`: buffers data packets and emits an FEC packet each time a group fills up. */
  class FecEncoder {
    var groupSize: nat
    var currentGroup: seq<bytes>
    var groupSequence: u32

    /** `FecEncoder::with_group_size`. */
    constructor(groupSize: nat)
      ensures this.groupSize == groupSize && currentGroup == [] && groupSequence == 0
    {
      this.groupSize := groupSize;
      currentGroup := [];
      groupSequence := 0;
    }

    /** `generate_fec`: the longest length, then every packet XORed into a zeroed buffer. */
    method GenerateFec() returns (p: FecPacket)
      ensures p == FecOf(currentGroup, groupSequence)
    {
      var maxLen := LongestLength(currentGroup);
      var lengths, fecData := XorColumns(currentGroup, maxLen);
      p := FecPacket(groupSequence, AsU8(|currentGroup|), lengths, fecData);
    }

    /**
     * `add_packet`: append the packet; once the group holds `group_size` packets, emit its FEC
     * packet, empty the group and step the group sequence.
     */
    method AddPacket(data: bytes) returns (r: Option<FecPacket>)
      modifies this
      ensures groupSize == old(groupSize)
      ensures var grown := old(currentGroup) + [data];
        if |grown| >= groupSize then
          r == Some(FecOf(grown, old(groupSequence))) && currentGroup == []
          && groupSequence == WrappingAdd(old(groupSequence), 1)
        else
          r == None && currentGroup == grown && groupSequence == old(groupSequence)
    {
      currentGroup := currentGroup + [data];
      if |currentGroup| >= groupSize {
        var fec := GenerateFec();
        currentGroup := [];
        groupSequence := WrappingAdd(groupSequence, 1);
        return Some(fec);
      }
      return None;
    }
  }

  /** The first loop of `generate_fec`: the longest packet's length. */
  method LongestLength(group: seq<bytes>) returns (maxLen: nat)
    ensures maxLen == MaxLen(group)
  {
    maxLen := 0;
    var k := 0;
    while k < |group|
      invariant k <= |group|
      invariant maxLen == MaxLen(group[..k])
    {
      assert group[..k + 1][..k] == group[..k];
      if |group[k]| > maxLen {
        maxLen := |group[k]|;
      }
      k := k + 1;
    }
    assert group[..|group|] == group;
  }

  /**
   * The second loop of `generate_fec`: each packet's length recorded, and each XORed into a
   * zeroed buffer of `maxLen` bytes.
   */
  method XorColumns(group: seq<bytes>, maxLen: nat) returns (lengths: seq<u16>, fecData: seq<byte>)
    ensures lengths == seq(|group|, j requires 0 <= j < |group| => AsU16(|group[j]|))
    ensures |fecData| == maxLen && forall i :: 0 <= i < maxLen ==> fecData[i] == ColumnXor(group, i)
  {
    var buf := new byte[maxLen](_ => 0);
    lengths := [];
    var k := 0;
    while k < |group|
      invariant k <= |group|
      invariant lengths == seq(k, j requires 0 <= j < k => AsU16(|group[j]|))
      invariant forall i :: 0 <= i < maxLen ==> buf[i] == ColumnXor(group[..k], i)
    {
      var packet := group[k];
      lengths := lengths + [AsU16(|packet|)];
      XorIn(buf, packet);
      forall i | 0 <= i < maxLen
        ensures buf[i] == ColumnXor(group[..k + 1], i)
      {
        ColumnXorStep(group, k, i);
        if i >= |packet| {
          XorZero(ColumnXor(group[..k], i));
        }
      }
      k := k + 1;
    }
    assert group[..|group|] == group;
    fecData := buf[..];
  }

  /**
   * XOR a packet into a buffer byte by byte, skipping bytes past the buffer's end (the
   * decoder's `if i < recovered.len()`; the encoder's buffer is always long enough).
   */
  method XorIn(buf: array<byte>, packet: bytes)
    modifies buf
    ensures forall i :: 0 <= i < buf.Length ==> buf[i] == Xor8(old(buf[i]), ByteAt(packet, i))
  {
    var j := 0;
    while j < |packet|
      invariant j <= |packet|
      invariant forall i :: 0 <= i < buf.Length && i < j ==> buf[i] == Xor8(old(buf[i]), packet[i])
      invariant forall i :: 0 <= i < buf.Length && j <= i ==> buf[i] == old(buf[i])
    {
      if j < buf.Length {
        buf[j] := Xor8(buf[j], packet[j]);
      }
      j := j + 1;
    }
    forall i | 0 <= i < buf.Length && i >= |packet|
      ensures buf[i] == Xor8(old(buf[i]), ByteAt(packet, i))
    {
      XorZero(old(buf[i]));
    }
  }

  /** The `for i in 0..expected_count` search for the first index with no packet. */
  method FindMissing(keys: set<nat>, count: nat) returns (missing: Option<nat>)
    ensures missing == FirstMissing(keys, 0, count)
  {
    missing := None;
    var i := 0;
    while i < count
      invariant i <= count
      invariant missing.None? ==> FirstMissing(keys, 0, count) == FirstMissing(keys, i, count)
      invariant missing.Some? ==> FirstMissing(keys, 0, count) == missing
    {
      if i !in keys {
        missing := Some(i);
        break;
      }
      i := i + 1;
    }
  }

  /** `fec_data.clone()` with every received packet XORed into it, in the table's own order. */
  method Unmix(fecData: bytes, packets: map<nat, bytes>) returns (recovered: array<byte>)
    ensures fresh(recovered)
    ensures recovered[..] == Unmixed(fecData, packets)
  {
    recovered := new byte[|fecData|](k requires 0 <= k < |fecData| => fecData[k]);
    var remaining := packets.Keys;
    ghost var done: set<nat> := {};
    forall k | 0 <= k < recovered.Length
      ensures recovered[k] == Xor8(fecData[k], KeysXor(packets, done, k))
    {
      XorZero(fecData[k]);
    }
    while remaining != {}
      invariant remaining + done == packets.Keys && remaining !! done
      invariant recovered.Length == |fecData|
      invariant forall k :: 0 <= k < recovered.Length ==> recovered[k] == Xor8(fecData[k], KeysXor(packets, done, k))
      decreases remaining
    {
      Collections.HasNatMember(remaining);
      var idx :| idx in remaining;
      var packet := packets[idx];
      XorIn(recovered, packet);
      forall k | 0 <= k < recovered.Length
        ensures recovered[k] == Xor8(fecData[k], KeysXor(packets, done + {idx}, k))
      {
        KeysXorAdd(packets, done, idx, fecData[k], k);
      }
      remaining := remaining - {idx};
      done := done + {idx};
    }
  }

  /** `FecPacket::to_bytes`: big-endian group sequence, count, a zero reserved byte, the lengths, the data. */
  function ToBytes(p: FecPacket): (r: bytes)
    ensures |r| == FEC_HEADER_SIZE + 2 * |p.packetLengths| + |p.fecData|
    ensures ReadU32BE(r, 0) == p.groupSequence && r[4] == p.packetCount && r[5] == 0
    ensures forall k :: 0 <= k < |p.packetLengths| ==> ReadU16BE(r, FEC_HEADER_SIZE + 2 * k) == p.packetLengths[k]
    ensures r[FEC_HEADER_SIZE + 2 * |p.packetLengths|..] == p.fecData
  {
    var head := U32BE(p.groupSequence) + [p.packetCount, 0];
    var lens := U16sBE(p.packetLengths);
    var r := head + lens + p.fecData;
    U32BEAt(r, 0, p.groupSequence);
    forall k | 0 <= k < |p.packetLengths|
      ensures ReadU16BE(r, FEC_HEADER_SIZE + 2 * k) == p.packetLengths[k]
    {
      assert r[FEC_HEADER_SIZE + 2 * k..FEC_HEADER_SIZE + 2 * k + 2] == lens[2 * k..2 * k + 2];
      U16BERead(lens, 2 * k);
      U16BEAt(r, FEC_HEADER_SIZE + 2 * k, p.packetLengths[k]);
    }
    r
  }

  /** `FecPacket::from_bytes`: None below the header or below the declared lengths table. */
  function FromBytes(data: bytes): (r: Option<FecPacket>)
    ensures r.None? <==> |data| < FEC_HEADER_SIZE || |data| < FEC_HEADER_SIZE + 2 * (data[4] as int)
    ensures r.Some? ==> (r.value.packetCount == data[4] && |r.value.packetLengths| == data[4] as int
      && |r.value.fecData| == |data| - FEC_HEADER_SIZE - 2 * (data[4] as int))
  {
    if |data| < FEC_HEADER_SIZE then None
    else
      var count := data[4] as nat;
      if |data| < FEC_HEADER_SIZE + 2 * count then None
      else
        Some(FecPacket(
          ReadU32BE(data, 0),
          data[4],
          ReadU16sBE(data, FEC_HEADER_SIZE, count),
          data[FEC_HEADER_SIZE + 2 * count..]))
  }

  /** Decoding an encoded FEC packet gives it back whenever its length table matches its count. */
  lemma RoundTrip(p: FecPacket)
    requires |p.packetLengths| == p.packetCount as int
    ensures FromBytes(ToBytes(p)) == Some(p)
  {
    var b := ToBytes(p);
    var q := FromBytes(b).value;
    assert q.packetLengths == p.packetLengths;
    U32BERead(b, 0);
  }

  // ---------------------------------------------------------------------------------------
  // Decoder

  /** What the decoder holds for one group: received packets by index, the FEC packet, and whether recovery already ran. */
  datatype GroupState = GroupState(packets: map<nat, bytes>, fec: Option<FecPacket>, recovered: bool)

  datatype RecoveredPacket = RecoveredPacket(groupSequence: u32, packetIndex: nat, data: bytes)

  const EMPTY_GROUP := GroupState(map[], None, false)

  /** `groups.entry(gs).or_insert_with(..)`: the group's state, a fresh one if absent. */
  function EntryOrNew(groups: map<u32, GroupState>, gs: u32): (g: GroupState)
    ensures gs in groups ==> g == groups[gs]
    ensures gs !in groups ==> g.packets == map[] && g.fec.None? && !g.recovered
  {
    if gs in groups then groups[gs] else EMPTY_GROUP
  }

  /** Byte i of the packets at the given keys XORed together; the order does not matter (KeysXorRemove). */
  ghost function KeysXor(packets: map<nat, bytes>, keys: set<nat>, i: nat): byte
    requires keys <= packets.Keys
    decreases keys
  {
    if keys == {} then 0
    else
      var k := Collections.Pick(keys);
      Xor8(ByteAt(packets[k], i), KeysXor(packets, keys - {k}, i))
  }

  lemma XorSwap(a: byte, b: byte, c: byte)
    ensures Xor8(a, Xor8(b, c)) == Xor8(b, Xor8(a, c))
  {
    XorAssoc(a, b, c);
    XorComm(a, b);
    XorAssoc(b, a, c);
  }

  /** Any key can be taken out first: the XOR of a set of packets does not depend on the iteration order. */
  lemma {:induction false} KeysXorRemove(packets: map<nat, bytes>, keys: set<nat>, k: nat, i: nat)
    requires keys <= packets.Keys && k in keys
    ensures KeysXor(packets, keys, i) == Xor8(ByteAt(packets[k], i), KeysXor(packets, keys - {k}, i))
    decreases |keys|
  {
    var j := Collections.Pick(keys);
    if j != k {
      KeysXorRemove(packets, keys - {j}, k, i);
      KeysXorRemove(packets, keys - {k}, j, i);
      assert keys - {j} - {k} == keys - {k} - {j};
      XorSwap(ByteAt(packets[j], i), ByteAt(packets[k], i), KeysXor(packets, keys - {j} - {k}, i));
    }
  }

  /** Folding one more packet into a running XOR gives the XOR over the enlarged key set. */
  lemma KeysXorAdd(packets: map<nat, bytes>, done: set<nat>, idx: nat, f: byte, i: nat)
    requires done <= packets.Keys && idx in packets && idx !in done
    ensures Xor8(Xor8(f, KeysXor(packets, done, i)), ByteAt(packets[idx], i)) == Xor8(f, KeysXor(packets, done + {idx}, i))
  {
    var rest, b := KeysXor(packets, done, i), ByteAt(packets[idx], i);
    KeysXorRemove(packets, done + {idx}, idx, i);
    assert done + {idx} - {idx} == done;
    assert KeysXor(packets, done + {idx}, i) == Xor8(b, rest);
    XorAssoc(f, rest, b);
    XorComm(rest, b);
  }

  /** Two tables that agree on the keys give the same XOR. */
  lemma {:induction false} KeysXorAgree(p: map<nat, bytes>, q: map<nat, bytes>, keys: set<nat>, i: nat)
    requires keys <= p.Keys && keys <= q.Keys
    requires forall k :: k in keys ==> p[k] == q[k]
    ensures KeysXor(p, keys, i) == KeysXor(q, keys, i)
    decreases keys
  {
    if keys != {} {
      var k := Collections.Pick(keys);
      KeysXorAgree(p, q, keys - {k}, i);
    }
  }

  /** The first index in [from, count) with no packet: the `for i in 0..expected_count` search. */
  function FirstMissing(keys: set<nat>, from: nat, count: nat): (r: Option<nat>)
    ensures r.Some? ==> (from <= r.value < count && r.value !in keys
      && forall j :: from <= j < r.value ==> j in keys)
    ensures r.None? ==> forall j :: from <= j < count ==> j in keys
    decreases count - from
  {
    if from >= count then None
    else if from !in keys then Some(from)
    else FirstMissing(keys, from + 1, count)
  }

  /** `recovered.truncate(n)`. */
  function Truncate(s: bytes, n: nat): (r: bytes)
    ensures |r| == if n < |s| then n else |s|
    ensures r == s[..|r|]
  {
    if n < |s| then s[..n] else s
  }

  /** The FEC data with every received packet XORed in, bytes past the FEC data ignored. */
  ghost function Unmixed(fecData: bytes, packets: map<nat, bytes>): (r: bytes)
    ensures |r| == |fecData|
  {
    seq(|fecData|, i requires 0 <= i < |fecData| => Xor8(fecData[i], KeysXor(packets, packets.Keys, i)))
  }

  /**
   * The recovery `try_recover` performs on one group: none once recovered or without FEC, none
   * unless exactly one packet short of the count, none when the missing index has no length.
   */
  ghost function RecoverSpec(g: GroupState, gs: u32): (r: Option<RecoveredPacket>)
    ensures r.Some? ==> !g.recovered && g.fec.Some? && |g.packets| + 1 == g.fec.value.packetCount as int
    ensures r.Some? ==> (r.value.groupSequence == gs && r.value.packetIndex !in g.packets
      && r.value.packetIndex < g.fec.value.packetCount as int
      && r.value.packetIndex < |g.fec.value.packetLengths|
      && forall j :: 0 <= j < r.value.packetIndex ==> j in g.packets)
  {
    if g.recovered || g.fec.None? then None
    else
      var fec := g.fec.value;
      if |g.packets| + 1 != fec.packetCount as int then None
      else
        match FirstMissing(g.packets.Keys, 0, fec.packetCount as int)
        case None => None
        case Some(m) =>
          if m >= |fec.packetLengths| then None
          else Some(RecoveredPacket(gs, m, Truncate(Unmixed(fec.fecData, g.packets), fec.packetLengths[m] as int)))
  }

  /** `cleanup`: past `max_groups` groups, drop the one with the smallest sequence. */
  ghost function CleanupSpec(groups: map<u32, GroupState>, maxGroups: nat): (r: map<u32, GroupState>)
    ensures r.Keys <= groups.Keys && forall k :: k in r ==> r[k] == groups[k]
    ensures |groups| <= maxGroups ==> r == groups
    ensures |groups| > maxGroups ==> (|r| + 1 == |groups|
      && forall k, j :: k in groups && k !in r && j in groups ==> k <= j)
  {
    if |groups| > maxGroups then
      var oldest := Collections.Min(groups.Keys);
      groups - {oldest}
    else groups
  }

  /** `try_recover`: recover, mark the group recovered, then clean up; otherwise nothing changes. */
  ghost function TryRecoverSpec(groups: map<u32, GroupState>, gs: u32, maxGroups: nat): (Option<RecoveredPacket>, map<u32, GroupState>)
  {
    if gs !in groups then (None, groups)
    else
      var r := RecoverSpec(groups[gs], gs);
      if r.None? then (None, groups)
      else (r, CleanupSpec(groups[gs := groups[gs].(recovered := true)], maxGroups))
  }

  /** `FecDecoder`: the table of groups being reassembled. */
  class FecDecoder {
    var groupSize: nat
    var groups: map<u32, GroupState>
    var maxGroups: nat

    /** `FecDecoder::with_group_size`. */
    constructor(groupSize: nat)
      ensures this.groupSize == groupSize && groups == map[] && maxGroups == MAX_GROUPS
    {
      this.groupSize := groupSize;
      groups := map[];
      maxGroups := MAX_GROUPS;
    }

    /** `add_packet`: store the packet at its index in its group, then try to recover. */
    method AddPacket(groupSequence: u32, packetIndex: nat, data: bytes) returns (r: Option<RecoveredPacket>)
      modifies this
      ensures groupSize == old(groupSize) && maxGroups == old(maxGroups)
      ensures var g := EntryOrNew(old(groups), groupSequence);
        (r, groups) == TryRecoverSpec(old(groups)[groupSequence := g.(packets := g.packets[packetIndex := data])], groupSequence, maxGroups)
    {
      var g := EntryOrNew(groups, groupSequence);
      groups := groups[groupSequence := g.(packets := g.packets[packetIndex := data])];
      r := TryRecover(groupSequence);
    }

    /** `add_fec`: store the FEC packet in its group, then try to recover. */
    method AddFec(fec: FecPacket) returns (r: Option<RecoveredPacket>)
      modifies this
      ensures groupSize == old(groupSize) && maxGroups == old(maxGroups)
      ensures var gs := fec.groupSequence; var g := EntryOrNew(old(groups), gs);
        (r, groups) == TryRecoverSpec(old(groups)[gs := g.(fec := Some(fec))], gs, maxGroups)
    {
      var gs := fec.groupSequence;
      var g := EntryOrNew(groups, gs);
      groups := groups[gs := g.(fec := Some(fec))];
      r := TryRecover(gs);
    }

    /** `try_recover`: find the one missing index, XOR every received packet out of the FEC data. */
    method TryRecover(gs: u32) returns (r: Option<RecoveredPacket>)
      modifies this
      ensures groupSize == old(groupSize) && maxGroups == old(maxGroups)
      ensures (r, groups) == TryRecoverSpec(old(groups), gs, maxGroups)
    {
      if gs !in groups {
        return None;
      }
      var g := groups[gs];
      if g.recovered || g.fec.None? {
        return None;
      }
      var fec := g.fec.value;
      var count := fec.packetCount as nat;
      if |g.packets| + 1 != count {
        return None;
      }
      var missing := FindMissing(g.packets.Keys, count);
      if missing.None? {
        return None;
      }
      var m := missing.value;
      if m >= |fec.packetLengths| {
        return None;
      }
      var recoveredLen := fec.packetLengths[m] as nat;
      var recovered := Unmix(fec.fecData, g.packets);
      var data := Truncate(recovered[..], recoveredLen);
      groups := groups[gs := g.(recovered := true)];
      Cleanup();
      return Some(RecoveredPacket(gs, m, data));
    }

    /** `cleanup`: past `max_groups`, remove the group with the smallest sequence. */
    method Cleanup()
      modifies this
      ensures groupSize == old(groupSize) && maxGroups == old(maxGroups)
      ensures groups == CleanupSpec(old(groups), maxGroups)
    {
      if |groups| > maxGroups {
        Collections.MinExists(groups.Keys);
        var oldest :| oldest in groups && forall y :: y in groups ==> oldest <= y;
        ghost var least := Collections.Min(groups.Keys);
        assert oldest <= least && least <= oldest;
        groups := groups - {oldest};
      }
    }
  }

  /** The packets of a group that arrived: all but the one at index m. */
  function Received(group: seq<bytes>, m: nat): (r: map<nat, bytes>)
    ensures forall j :: j in r <==> 0 <= j < |group| && j != m
    ensures forall j :: j in r ==> r[j] == group[j]
  {
    map j | 0 <= j < |group| && j != m :: group[j]
  }

  /** The whole group as an index table. */
  function AsTable(group: seq<bytes>): (r: map<nat, bytes>)
    ensures r.Keys == Collections.Range(|group|)
    ensures forall j :: j in r ==> r[j] == group[j]
  {
    map j | 0 <= j < |group| :: group[j]
  }

  /** The encoder's in-order column XOR equals the order-free XOR over the first n indices. */
  lemma {:induction false} ColumnXorAsKeys(group: seq<bytes>, n: nat, i: nat)
    requires n <= |group|
    ensures ColumnXor(group[..n], i) == KeysXor(AsTable(group), Collections.Range(n), i)
  {
    var t := AsTable(group);
    if n > 0 {
      var prior, b := ColumnXor(group[..n - 1], i), ByteAt(group[n - 1], i);
      var below, upTo := Collections.Range(n - 1), Collections.Range(n);
      ColumnXorAsKeys(group, n - 1, i);
      assert prior == KeysXor(t, below, i);
      ColumnXorStep(group, n - 1, i);
      assert ColumnXor(group[..n], i) == Xor8(prior, b);
      assert upTo - {n - 1} == below;
      KeysXorRemove(t, upTo, n - 1, i);
      assert KeysXor(t, upTo, i) == Xor8(b, prior);
      XorComm(prior, b);
    }
  }

  /** One column: XORing the received packets out of the group's column XOR leaves the lost packet's byte. */
  lemma UnmixColumn(group: seq<bytes>, m: nat, i: nat)
    requires m < |group|
    ensures Xor8(ColumnXor(group, i), KeysXor(Received(group, m), Received(group, m).Keys, i)) == ByteAt(group[m], i)
  {
    var n := |group|;
    var t, received := AsTable(group), Received(group, m);
    var all := Collections.Range(n);
    var rest := KeysXor(received, received.Keys, i);
    var b := ByteAt(group[m], i);
    ColumnXorAsKeys(group, n, i);
    assert group[..n] == group;
    ReceivedKeys(group, m);
    KeysXorRemove(t, all, m, i);
    KeysXorAgree(t, received, received.Keys, i);
    assert ColumnXor(group, i) == Xor8(b, rest);
    XorComm(b, rest);
    XorInvolutive(b, rest);
  }

  /**
   * The central promise: a decoder holding the FEC packet of a group and every packet of it
   * except the one at index m, each at its own index, rebuilds exactly that packet.
   */
  lemma RecoverMissing(group: seq<bytes>, gs: u32, m: nat)
    requires 0 < |group| < 0x100 && m < |group|
    requires forall j :: 0 <= j < |group| ==> |group[j]| < 0x1_0000
    ensures RecoverSpec(GroupState(Received(group, m), Some(FecOf(group, gs)), false), gs)
      == Some(RecoveredPacket(gs, m, group[m]))
  {
    var received := Received(group, m);
    var fec := FecOf(group, gs);
    ReceivedShape(group, m);
    UnmixedLost(group, m, fec.fecData);
    assert fec.packetCount as int == |group|;
    assert fec.packetLengths[m] as int == |group[m]|;
  }

  /** The received table misses exactly index m, so it is one short of the group and m is its first gap. */
  lemma ReceivedShape(group: seq<bytes>, m: nat)
    requires m < |group|
    ensures |Received(group, m)| + 1 == |group|
    ensures FirstMissing(Received(group, m).Keys, 0, |group|) == Some(m)
  {
    ReceivedKeys(group, m);
  }

  /** The received table's indices are the group's, less m. */
  lemma ReceivedKeys(group: seq<bytes>, m: nat)
    requires m < |group|
    ensures Received(group, m).Keys == Collections.Range(|group|) - {m}
  {
    var received := Received(group, m);
    assert received.Keys == Collections.Range(|group|) - {m};
  }

  /** The FEC data with the received packets XORed out starts with the lost packet. */
  lemma UnmixedLost(group: seq<bytes>, m: nat, fecData: bytes)
    requires m < |group| && |fecData| == MaxLen(group)
    requires forall i :: 0 <= i < |fecData| ==> fecData[i] == ColumnXor(group, i)
    ensures Truncate(Unmixed(fecData, Received(group, m)), |group[m]|) == group[m]
  {
    var un := Unmixed(fecData, Received(group, m));
    forall i | 0 <= i < |group[m]|
      ensures un[i] == group[m][i]
    {
      UnmixColumn(group, m, i);
    }
  }

  /** With every index below the count but two absent, and nothing stored beyond it, nothing is recovered. */
  lemma NoRecoveryWithTwoMissing(g: GroupState, gs: u32, a: nat, b: nat)
    requires g.fec.Some? && a != b
    requires forall j :: j in g.packets ==> j < g.fec.value.packetCount as int
    requires a < g.fec.value.packetCount as int && b < g.fec.value.packetCount as int
    requires a !in g.packets && b !in g.packets
    ensures RecoverSpec(g, gs).None?
  {
    Collections.SubsetOfRange(g.packets.Keys, g.fec.value.packetCount as int, {a, b});
  }
}
