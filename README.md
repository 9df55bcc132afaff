# p2paudiosession in Dafny

A model of the sequential core of p2paudiosession, a low-latency peer-to-peer audio application
written in Rust, together with its PESQ evaluation script (Python). Each core source file becomes one
Dafny module, and properties of the model are proved:

- **Wire formats.** `Packet` models the 12-byte packet header and the latency ping, pong and info
  payloads. `Fec` models the XOR forward-error-correction packet. `Stun` models building a Binding
  request and parsing a Binding response (sections 6, 15, 15.1 and 15.2 of RFC 5389). `Metronome`
  models the 24-byte metronome sync message and `Recording` the 44-byte RIFF/WAVE header. `Codec`
  models PCM sample packing and the codec flag bits. `Encryption` models the AES-GCM nonce
  derivation and packet rewriting; the cipher and HKDF are parameters.
- **Stateful structures**, written as classes whose methods update fields:
  - the jitter buffer (`JitterBuffer`);
  - the 64-packet sliding-window loss tracker with u32 wrap-around (`SequenceTracker`);
  - the FEC encoder group and decoder group table (`Fec`);
  - packet-loss concealment (`Plc`);
  - the effects and the effect chain (`Effects`);
  - the echo server's timed FIFO (`EchoServer`);
  - the RTT pending-ping table and the connection guards (`Connection`);
  - the session peer table (`Session`);
  - the WAV recorder's flags and counters (`Recording`);
  - the metronome's beat and measure counters (`Metronome`);
  - the stored application configuration (`Config`).
- **Rule sets.** `Signaling` models the room transitions of the signalling server as a transition
  function over a rooms map and the per-connection `(current_room, current_peer_id)`; broadcasts
  become an output log. It also models candidate priorities (section 4.1.2.1 of RFC 5245, with
  component ID 1) and the invite-code format. `Config` models validation, presets and the connection
  history list. `Connection` models the connection state byte and its predicates.
- **The scorer** (`Evaluate`): channel averaging, the resampled length, the alignment slicing with
  the lag as an input, the error records, and the dispatch and exit status of `main`.

Shared helpers:
- `Bytes`: big- and little-endian integer encodings and byte XOR.
- `Ints`: u32 wrapping arithmetic and the `wrapping_sub as i32` sequence difference.
- `Utf8`: UTF-8 byte length of a string.
- `Text`: Rust's `trim` and decimal rendering.
- `Collections`: minimum of a finite set, ranges.
- `Net`: IPv4/IPv6 socket addresses and network errors.
- `Ids`: the hyphenated lower-case UUID text.
- `Wrappers`: `Option`, `Result`.

Conventions:
- Integers are unbounded. Fixed widths are subset types (`u8`, `u16`, `u32`, `u64`), and wrap-around
  is written out as arithmetic modulo 2^32 where the source wraps.
- `f32` samples are 32-bit words where they are only moved (codecs, packets). They are `real` where
  they are scaled (gains, fades, mixing). Rounding is not modelled.
- Clocks (`Instant`, "now") are `nat` parameters, in the unit each module's source uses:
  microseconds in `Connection` (the RTT table and the connection start time; round trips are
  converted to milliseconds as the source does), milliseconds in `EchoServer`, and a UTC
  timestamp counter in `Config`'s connection history. Randomness (UUIDs, room IDs, invite-code
  symbols) is passed in.
- Plain `+`, `*` and `+=` on fixed-width integers follow a release build, where overflow wraps
  rather than panics. Where such an operation can overflow it is written modulo 2^32 or 2^64,
  except for the u64 statistics counters, which are unbounded (see "Left out"). The wrapped sites are:
  the PLC loss counter (`src/audio/plc.rs:83`), the FEC group counter (`src/network/fec.rs:41`),
  the jitter buffer's prune bound (`src/network/jitter_buffer.rs:312`), the metronome's samples
  per beat and its position (`src/audio/metronome.rs:68`, `:111`, `:181`), the recorder's sample
  counter, the RIFF size (`src/audio/recording.rs:224`), and the WAV byte rate and block alignment.
- Atomics and locks are plain fields.

Some quirks of the source are reproduced and proved as stated:
- `is_invite_code_format` compares UTF-8 byte length and casts each character to `u8`, so a
  character such as U+0141 counts as `'A'`, and its two bytes let a five-character string pass the
  six-byte check (`Signaling.InviteFormatAliasesWideCharacters`).
- `JoinRoom` overwrites the connection's current room without leaving the previous one
  (`Signaling.JoinKeepsPreviousRoom`).
- `config_set_peer_name` limits the name to 32 UTF-8 bytes, although its message speaks of
  characters (`Config.PeerNameCountsBytes`).
- In the evaluation script, an error record whose message is the empty string exits with status 0,
  because the exit status tests the message's truthiness (`Evaluate.EmptyErrorExitsZero`).

## Model

| member | source | states |
|---|---|---|
| Packet.TypeToByte | src/protocol/packet.rs:26-41 | each packet type's byte is its discriminant 1..7, and decoding that byte gives the type back |
| Packet.TypeFromByte | src/protocol/packet.rs:46-57 | a byte gives a packet type exactly when it is 1 to 7 |
| Packet.TypeFromByteExact | src/protocol/packet.rs:46-57 | `try_from` accepts exactly the bytes 1..7, and each accepted byte names the type whose discriminant it is |
| Packet.FlagsToU16 | src/protocol/packet.rs:70-79 | the flags word is below 4, with bit 0 the `encrypted` flag and bit 1 the `has_fec` flag |
| Packet.FlagsFromU16 | src/protocol/packet.rs:81-86 | encrypted is bit 0 and has-FEC is bit 1 of the word |
| Packet.FlagsRoundTrip | src/protocol/packet.rs:70-86 | decoding the flags word of any flags gives those flags back |
| Packet.FlagsIgnoreHighBits | src/protocol/packet.rs:81-86 | `from_u16` ignores every bit above bit 1, so re-encoding keeps only the low two bits |
| Packet.AudioPacket | src/protocol/packet.rs:102-111 | an audio packet carries the sequence, timestamp and payload given, the current version and cleared flags |
| Packet.KeepAlivePacket | src/protocol/packet.rs:114-123 | a keep-alive packet has timestamp 0 and an empty payload |
| Packet.LatencyPingPacket | src/protocol/packet.rs:126-135 | a latency-ping packet's payload decodes to the ping it was built from |
| Packet.LatencyPongPacket | src/protocol/packet.rs:138-147 | a latency-pong packet's payload decodes to the pong it was built from |
| Packet.LatencyInfoPacket | src/protocol/packet.rs:150-159 | a latency-info packet's payload decodes to the info message when the codec name fits in 255 bytes |
| Packet.ToBytes | src/protocol/packet.rs:162-173 | the header is 12 bytes: version, type byte, big-endian sequence and timestamp, flags word; the payload follows unchanged |
| Packet.FromBytes | src/protocol/packet.rs:176-200 | decoding fails exactly for input under 12 bytes, a version other than 1 or an unknown type byte; otherwise the payload is the bytes after the header |
| Packet.RoundTrip | src/protocol/packet.rs:162-200 | every packet of the current version survives `to_bytes` then `from_bytes` unchanged |
| Packet.BytesRoundTrip | src/protocol/packet.rs:162-200 | re-encoding a decoded packet reproduces the input exactly when its flags word uses no bit above bit 1 |
| Packet.PingToBytes | src/protocol/packet.rs:225-230 | a ping is 12 bytes: the send time as big-endian u64, then the ping sequence as u32 |
| Packet.PingFromBytes | src/protocol/packet.rs:233-243 | decoding a ping fails exactly when the input is shorter than 12 bytes |
| Packet.PingRoundTrip | src/protocol/packet.rs:225-243 | every ping survives encoding and decoding |
| Packet.PongToBytes | src/protocol/packet.rs:264-269 | a pong is 12 bytes: the original send time, then the ping sequence |
| Packet.PongFromBytes | src/protocol/packet.rs:272-282 | decoding a pong fails exactly when the input is shorter than 12 bytes |
| Packet.PongRoundTrip | src/protocol/packet.rs:264-282 | every pong survives encoding and decoding |
| Packet.InfoToBytes | src/protocol/packet.rs:322-338 | the seven u32 fields as big-endian words, the codec name's length capped at 255, then that many bytes of its UTF-8 encoding |
| Packet.InfoFromBytes | src/protocol/packet.rs:341-371 | decoding fails under 29 bytes; otherwise it succeeds exactly when the length byte's worth of name is present and is valid UTF-8; the fields are the header words |
| Packet.InfoRoundTrip | src/protocol/packet.rs:322-371 | a message whose codec name fits in 255 UTF-8 bytes survives a round trip |
| JitterBuffer.Validated | src/network/jitter_buffer.rs:30-48 | the result always has 1 ≤ min ≤ initial ≤ max and a positive frame duration; a field already in range is kept, and a valid configuration comes back unchanged |
| JitterBuffer.ValidatedIdempotent | src/network/jitter_buffer.rs:30-48 | validating twice is the same as validating once |
| JitterBuffer.PruneBound | src/network/jitter_buffer.rs:312 | `max_delay_frames * 2` in u32 arithmetic: twice the maximum when that fits, never more |
| JitterBuffer.Pruned | src/network/jitter_buffer.rs:311-320 | pruning keeps a sub-table of at most the bound (all of it when it fits), and every dropped key is smaller than every kept one |
| JitterBuffer.PruneTable | src/network/jitter_buffer.rs:311-320 | the loop removing the first key while too many are held yields exactly `Pruned` |
| JitterBuffer.TrackMinimum | src/network/jitter_buffer.rs:160-171 | before playback the cursor becomes the first sequence seen, then any sequence behind it in wrap-aware order |
| JitterBuffer.TrackAll | src/network/jitter_buffer.rs:160-171 | after at least one arrival before playback there is a cursor |
| JitterBuffer.TrackAllFindsEarliest | src/network/jitter_buffer.rs:160-171 | when all arrivals lie in the half circle after a base, the cursor ends on the arrival nearest the base, so out-of-order arrivals still play from the earliest |
| JitterBuffer.JitterBuffer.Depth | src/network/jitter_buffer.rs:238-240 | the depth is the number of packets held (as u32) |
| JitterBuffer.JitterBuffer.constructor | src/network/jitter_buffer.rs:129-144 | a new buffer holds the validated configuration, the initial delay, no packets, no cursor and zero counters |
| JitterBuffer.JitterBuffer.Insert | src/network/jitter_buffer.rs:152-193 | the first timestamp is kept once set; before playback the cursor tracks the minimum; during playback an arrival behind the cursor counts as late; the packet is stored and the table pruned to the bound; the invariant is kept |
| JitterBuffer.JitterBuffer.Store | src/network/jitter_buffer.rs:181-192 | the packet is stored, counted, and the table pruned; nothing else changes |
| JitterBuffer.JitterBuffer.PruneOldPackets | src/network/jitter_buffer.rs:311-320 | the table becomes `Pruned` of the old one at twice the maximum delay; nothing else changes |
| JitterBuffer.JitterBuffer.Pop | src/network/jitter_buffer.rs:198-230 | Underrun exactly without a cursor, or before playback with fewer packets than the delay, and then nothing changes; with a cursor and enough packets buffered, playback starts; otherwise the packet at the cursor (removed and counted as played) or Lost (counted as lost), and the cursor steps on by one with wrap-around |
| JitterBuffer.JitterBuffer.Adapt | src/network/jitter_buffer.rs:268-289 | above 5% loss the delay rises by one up to the maximum; below 1% loss with more than the delay buffered it falls by one down to the minimum; otherwise it stays; the delay stays within [min, max] |
| JitterBuffer.JitterBuffer.Reset | src/network/jitter_buffer.rs:292-303 | the buffer is emptied, the cursor and playing flag cleared, the counters zeroed and the initial delay restored |
| Fec.MaxLen | src/network/fec.rs:51-56 | the longest packet's length: no packet is longer, one packet has it, and 0 for an empty group |
| Fec.FecOf | src/network/fec.rs:49-75 | the FEC packet of a group: its sequence, the count and each length (exact as long as they fit `u8`/`u16`), and one XOR column per byte of the longest packet |
| Fec.FecEncoder.constructor | src/network/fec.rs:25-31 | a new encoder has the given group size, an empty group and group sequence 0 |
| Fec.FecEncoder.GenerateFec | src/network/fec.rs:49-75 | the method's two loops compute exactly `FecOf` of the current group |
| Fec.LongestLength | src/network/fec.rs:51-56 | the first loop finds `MaxLen` of the group |
| Fec.XorColumns | src/network/fec.rs:59-67 | the second loop records each packet's `as u16` length and leaves each buffer byte the XOR of that column |
| Fec.FecEncoder.AddPacket | src/network/fec.rs:35-46 | the packet is appended; once the group reaches the group size its FEC packet is returned, the group emptied and the group sequence stepped with wrap-around; otherwise nothing is returned |
| Fec.ColumnXorStep | src/network/fec.rs:62-66 | XORing one more packet into a column extends the column XOR by that packet's byte (0 past its end) |
| Fec.XorIn | src/network/fec.rs:265-271 | each byte of the buffer is XORed with the packet's byte at that index, bytes past the buffer's end skipped |
| Fec.ToBytes | src/network/fec.rs:104-122 | big-endian group sequence, the count, a zero reserved byte, each length as big-endian u16, then the data |
| Fec.FromBytes | src/network/fec.rs:125-154 | decoding fails exactly below the 6-byte header or below the declared lengths table; otherwise count, lengths and data take the rest |
| Fec.RoundTrip | src/network/fec.rs:104-154 | an FEC packet whose length table matches its count survives encoding and decoding |
| Fec.EntryOrNew | src/network/fec.rs:190-209 | `entry(gs).or_insert_with`: the stored group state, or a fresh empty one |
| Fec.FirstMissing | src/network/fec.rs:249-255 | the first index below the count with no packet: it is absent and every index before it present; none when all are present |
| Fec.FindMissing | src/network/fec.rs:249-255 | the search loop finds `FirstMissing` |
| Fec.Truncate | src/network/fec.rs:272 | `truncate(n)`: the first `min(n, len)` bytes |
| Fec.Unmixed | src/network/fec.rs:261-270 | the FEC data with the received packets XORed in keeps the FEC data's length |
| Fec.Unmix | src/network/fec.rs:261-270 | the loop over the received packets, in the table's own order, yields `Unmixed` in a fresh buffer |
| Fec.KeysXorRemove | src/network/fec.rs:263-270 | any key can be taken out first: the XOR over a set of packets does not depend on the order the HashMap iterates in |
| Fec.KeysXorAdd | src/network/fec.rs:263-270 | folding one more packet into a running XOR gives the XOR over the enlarged key set |
| Fec.KeysXorAgree | src/network/fec.rs:263-270 | two tables that agree on a key set give the same XOR over it |
| Fec.RecoverSpec | src/network/fec.rs:232-286 | a recovery only happens for an unrecovered group with FEC, exactly one packet short of the count, and is of the first absent index, which is below the count and has a recorded length |
| Fec.CleanupSpec | src/network/fec.rs:289-296 | at most `max_groups` groups are left alone; past it exactly one group, one with the smallest sequence, is removed |
| Fec.FecDecoder.constructor | src/network/fec.rs:180-186 | a new decoder has the given group size, no groups and a limit of 16 groups |
| Fec.FecDecoder.AddPacket | src/network/fec.rs:190-209 | the packet is stored at its index in its group, created if absent, and the recovery attempt follows |
| Fec.FecDecoder.AddFec | src/network/fec.rs:213-229 | the FEC packet is stored in its group, created if absent, and the recovery attempt follows |
| Fec.FecDecoder.TryRecover | src/network/fec.rs:232-286 | the method's loops perform exactly `TryRecoverSpec`: the recovery, the recovered flag and the cleanup |
| Fec.FecDecoder.Cleanup | src/network/fec.rs:289-296 | the groups become `CleanupSpec` of the old ones |
| Fec.ColumnXorAsKeys | src/network/fec.rs:62-66 | the encoder's in-order column XOR equals the order-free XOR over the first n indices |
| Fec.UnmixColumn | src/network/fec.rs:261-270 | XORing the received packets out of a group's column XOR leaves the lost packet's byte |
| Fec.RecoverMissing | src/network/fec.rs:49-75 | a decoder holding a group's FEC packet and all but one of its packets, each at its index, rebuilds exactly the missing packet |
| Fec.ReceivedShape | src/network/fec.rs:243-255 | a group missing only index m is one short of the count and m is its first gap |
| Fec.ReceivedKeys | src/network/fec.rs:243-255 | the received indices are the group's, less m |
| Fec.UnmixedLost | src/network/fec.rs:258-272 | the FEC data with the received packets XORed out, truncated to the lost length, is the lost packet |
| Fec.NoRecoveryWithTwoMissing | src/network/fec.rs:243-246 | with two indices below the count absent, nothing is recovered |
| SequenceTracker.ShiftIn | src/network/sequence_tracker.rs:70-75 | the shifted window stays within 64 bits and holds bit 0 and each old bit moved up by the jump |
| SequenceTracker.Gap | src/network/sequence_tracker.rs:63-67 | the sequences a forward jump skips: `highest + 1` up to `highest + n`, in order, with wrap-around |
| SequenceTracker.SkippedSequences | src/network/sequence_tracker.rs:63-67 | the `for i in 1..diff` loop pushes exactly `Gap` |
| SequenceTracker.RecordKeepsValid | src/network/sequence_tracker.rs:43-104 | every record keeps the window within 64 bits, counts one packet received and stores the sequence as the last one |
| SequenceTracker.RecordStep | src/network/sequence_tracker.rs:43-104 | fewer than 64 losses are reported, never the arriving sequence; losses are reported only when the sequence becomes the highest, and then the lost count grows by their number; otherwise it never grows |
| SequenceTracker.RecordFirst | src/network/sequence_tracker.rs:47-52 | the first record reports nothing and makes the sequence the highest, with only its own bit set |
| SequenceTracker.RecordAhead | src/network/sequence_tracker.rs:59-81 | a jump of 1 to 64 ahead reports exactly the skipped sequences in order, counts them lost, and makes the new sequence the highest and received while no skipped one is |
| SequenceTracker.RecordAheadKeeps | src/network/sequence_tracker.rs:70-75 | a packet received before the jump that still lies inside the shifted window stays received |
| SequenceTracker.RecordJump | src/network/sequence_tracker.rs:76-81 | a jump of more than 64 reports nothing and restarts the window at the new sequence |
| SequenceTracker.RecordLate | src/network/sequence_tracker.rs:82-97 | a late packet up to 63 behind becomes received and takes back one loss (never below zero); a duplicate changes nothing but the received count |
| SequenceTracker.RecordStale | src/network/sequence_tracker.rs:82-101 | the highest sequence again, or one 64 or more behind, only counts as received |
| SequenceTracker.RecordAcrossWrap | src/network/sequence_tracker.rs:57-81 | `u32::MAX` followed by 0 is a step of one, and nothing is lost across the wrap |
| SequenceTracker.SequenceTracker.constructor | src/network/sequence_tracker.rs:28-37 | a new tracker is in the initial state |
| SequenceTracker.SequenceTracker.Record | src/network/sequence_tracker.rs:43-104 | the method's new state and its reported losses are exactly `RecordStep` of the old state |
| SequenceTracker.SequenceTracker.WasReceived | src/network/sequence_tracker.rs:140-148 | whether the sequence's bit is set within the 64-sequence window behind the highest |
| SequenceTracker.SequenceTracker.Reset | src/network/sequence_tracker.rs:151-157 | the tracker returns to the initial state |
| Stun.BuildBindingRequest | src/network/stun.rs:117-133 | the request is a 20-byte header: Binding Request type, zero length, the magic cookie and the transaction ID (section 6 of RFC 5389) |
| Stun.Pad4 | src/network/stun.rs:194 | `(n + 3) & !3` is n rounded up to the next multiple of four |
| Stun.ParseXorMappedAddress | src/network/stun.rs:203-240 | an address comes back exactly for at least 8 bytes with family IPv4; under 8 bytes it is the "too short" failure (section 15.2 of RFC 5389); no failure is a header failure |
| Stun.ParseMappedAddress | src/network/stun.rs:243-270 | an address comes back exactly for at least 8 bytes with family IPv4; under 8 bytes it is the "too short" failure (section 15.1 of RFC 5389); no failure is a header failure |
| Stun.Walk | src/network/stun.rs:171-199 | the attribute walk only ever yields an IPv4 address, and its failures are never header failures |
| Stun.ParseResponse | src/network/stun.rs:136-200 | a success needs every header check passed (length, type, cookie, transaction ID, declared length); the result is a header failure exactly when some check fails; past them the result is the walk over the declared length |
| Stun.HeaderChecksInOrder | src/network/stun.rs:136-170 | the header checks run in the source's order: under 20 bytes is "Response too short"; then a type other than Binding Response is "Unexpected message type" carrying that type; then a wrong cookie, then a wrong transaction ID, then a declared length past the data, each with its own failure |
| Stun.ParseBindingResponse | src/network/stun.rs:136-200 | the method's `while` loop over the attributes computes exactly `ParseResponse` |
| Stun.OwnRequestRejected | src/network/stun.rs:117-148 | a client's own request is refused as a response because its type is the request type |
| Stun.EncodeAttribute | src/network/stun.rs:174-194 | an encoded attribute takes 4 header bytes plus its value padded to a multiple of four |
| Stun.AttributeAt | src/network/stun.rs:174-194 | an encoded attribute reads back as its type, length and value, and the rest follows its padding |
| Stun.WalkEncoded | src/network/stun.rs:171-199 | over well-encoded attributes the walk finds the first XOR-MAPPED-ADDRESS or MAPPED-ADDRESS attribute |
| Stun.ParseEncodedResponse | src/network/stun.rs:136-200 | a well-formed Binding response built by a server parses to the address of its first address attribute |
| Stun.EncodeXorMappedAddress | src/network/stun.rs:203-240 | a server's XOR-MAPPED-ADDRESS value for IPv4 is 8 bytes |
| Stun.EncodeMappedAddress | src/network/stun.rs:243-270 | a server's MAPPED-ADDRESS value for IPv4 is 8 bytes |
| Stun.XorMappedRoundTrip | src/network/stun.rs:203-240 | un-XORing the port and address gives back what the server XORed |
| Stun.MappedRoundTrip | src/network/stun.rs:243-270 | parsing a MAPPED-ADDRESS value gives back the address encoded |
| Stun.ExamplePortXor | src/network/stun.rs:299-300 | 0x329A XOR 0x2112 is 0x1388 |
| Stun.ExampleAddressXor | src/network/stun.rs:299-301 | 0xE1BAA526 XOR the magic cookie is 0xC0A80164 |
| Stun.ExampleUnxored | src/network/stun.rs:299-301 | un-XORing the example gives port 5000 and 192.168.1.100 |
| Stun.ExampleOctets | src/network/stun.rs:301 | 0xC0A80164 is 192.168.1.100 |
| Stun.ExampleParsed | src/network/stun.rs:298-311 | the example value parses to its un-XORed port and address |
| Stun.XorMappedExample | src/network/stun.rs:298-311 | the example value parses to 192.168.1.100:5000 |
| Net.Ipv4ToU32 | src/network/stun.rs:219 | an IPv4 address written as a 32-bit number reads back as the same address |
| Connection.StateToU8 | src/network/connection.rs:190-207 | the stored discriminant of any state is between 0 and 6 |
| Connection.StateFromU8 | src/network/connection.rs:211-222 | a byte with no state (above 6) reads back as Disconnected |
| Connection.StateRoundTrip | src/network/connection.rs:190-222 | reading the stored byte gives back the state that was stored |
| Connection.StateBytesExact | src/network/connection.rs:190-222 | every byte from 0 to 6 names exactly one state and is stored as itself |
| Connection.StatePredicates | src/network/connection.rs:225-240 | connected means Connected alone, connecting means the three set-up states, transmitting means Connected or Reconnecting, and no set-up state may transmit |
| Connection.IsConnected | src/network/connection.rs:225-227 | connected exactly when the stored state byte is 4 (Connected) |
| Connection.IsConnecting | src/network/connection.rs:230-235 | connecting exactly when the stored state byte is 1 to 3 (the set-up states) |
| Connection.CanTransmit | src/network/connection.rs:238-240 | transmitting exactly when the stored state byte is 4 or 5 (Connected or Reconnecting) |
| Connection.PendingAfterPing | src/network/connection.rs:82-99 | the new ping is recorded with its send time; the table stays within ten; when ten are pending the smallest sequence is evicted and the others are kept |
| Connection.SamplesAfter | src/network/connection.rs:107-111 | the window holds the newest ten samples, with the new sample last and the oldest one dropped first |
| Connection.SmoothedRtt | src/network/connection.rs:114-119 | the first sample is taken as it is; after that the smoothed RTT moves toward each new sample without passing it |
| Connection.UpdatedJitter | src/network/connection.rs:122-124 | the jitter is 3/4 of the old jitter plus 1/4 of the distance from the smoothed RTT, so it is never negative |
| Connection.RttMeasurement.constructor | src/network/connection.rs:63-72 | a new measurement has no RTT, no jitter, no pending pings and no samples, and starts at sequence 0 |
| Connection.RttMeasurement.CreatePing | src/network/connection.rs:82-100 | the ping carries the elapsed microseconds and the next sequence, that counter wraps at 2^32, and the table becomes `PendingAfterPing` |
| Connection.RttMeasurement.ProcessPong | src/network/connection.rs:103-133 | a pong for a pending ping retires that ping and updates the samples, smoothed RTT and jitter from its round trip in milliseconds; any other pong changes nothing |
| Connection.Connection.constructor | src/network/connection.rs:277-299 | a new connection is Disconnected, with no error, sequence 0, nothing sent, and remote address 0.0.0.0:0 |
| Connection.Connection.SetState | src/network/connection.rs:358-366 | the state is set, and the recorded error is cleared unless the new state is Failed |
| Connection.Connection.SetFailed | src/network/connection.rs:370-376 | the error is recorded and the state becomes Failed |
| Connection.Connection.NextSequence | src/network/connection.rs:472-474 | the current sequence is returned and the counter wraps at 2^32 |
| Connection.Connection.Connect | src/network/connection.rs:307-331 | a Connected connection refuses; any other state records the remote address and sends one keep-alive, and only a successful send makes it Connected with a start time |
| Connection.Connection.Disconnect | src/network/connection.rs:334-345 | the connection becomes Disconnected and its error is cleared |
| Connection.Connection.SendAudio | src/network/connection.rs:430-448 | only a state that can transmit sends; it uses one sequence, and a successful send adds one packet and the wire size to the statistics |
| Connection.Connection.SendLatencyInfo | src/network/connection.rs:402-412 | only a state that can transmit sends; it uses one sequence and returns the socket's result |
| Connection.AudioPacketSize | src/network/connection.rs:430-448 | an audio packet takes 12 header bytes plus four bytes per sample |
| Signaling.LocalPreference | src/network/signaling.rs:44-70 | an IPv6 address gets local preference 65535, an IPv4 one 65534 |
| Signaling.Priority | src/network/signaling.rs:44-70 | the priority packs the type preference in bits 24 and up, the local preference in bits 8 to 23, and 255 in the low byte (section 4.1.2.1 of RFC 5245) |
| Signaling.HostCandidate | src/network/signaling.rs:44-56 | a host candidate keeps its address and has type preference 126 |
| Signaling.ServerReflexiveCandidate | src/network/signaling.rs:59-70 | a server-reflexive candidate keeps its address and has type preference 100 |
| Signaling.HostOutranksServerReflexive | src/network/signaling.rs:927-941 | every host candidate has a higher priority than every server-reflexive one, whatever the families |
| Signaling.Ipv6OutranksIpv4 | src/network/signaling.rs:44-70 | within one candidate type an IPv6 candidate has a higher priority than an IPv4 one |
| Signaling.Addresses | src/network/signaling.rs:773-775 | the result lists each candidate's address in the candidates' order |
| Signaling.InsertPermutes | src/network/signaling.rs:92-93 | inserting a candidate neither loses nor adds one |
| Signaling.InsertSorted | src/network/signaling.rs:92-93 | inserting into a list sorted by priority, highest first, keeps it sorted |
| Signaling.InsertStable | src/network/signaling.rs:92-93 | inserting keeps candidates of equal priority in their original order |
| Signaling.SortByPriority | src/network/signaling.rs:92-93 | the sort yields a permutation, highest priority first, with equal priorities in their original order (Rust's sort is stable) |
| Signaling.WithPriorityMember | src/network/signaling.rs:92-93 | the candidates at one priority are exactly the list's members with that priority |
| Signaling.StableSortUnique | src/network/signaling.rs:92-93 | two sorted lists with the same candidates, in the same order, at every priority are equal, so any stable sort gives this result |
| Signaling.HeadsAgree | src/network/signaling.rs:92-93 | two such lists start with the same candidate |
| Signaling.TailsAgree | src/network/signaling.rs:92-93 | after dropping that common first candidate, both lists still have the same candidates at every priority |
| Signaling.AppendIfAbsent | src/network/signaling.rs:98-107 | a legacy address goes on the end only when it is given and not already listed, and the result holds exactly the old addresses and that one |
| Signaling.SortedCandidates | src/network/signaling.rs:91-110 | the list starts with the sorted candidates' addresses, then adds at most two more, and holds exactly the candidate, public and local addresses |
| Signaling.SortedAddressesSame | src/network/signaling.rs:91-110 | sorting keeps the set of addresses |
| Signaling.AddressesOfPermutation | src/network/signaling.rs:91-110 | permuted candidate lists have the same addresses |
| Signaling.SortedCandidatesRanked | src/network/signaling.rs:91-110 | in the result, an earlier candidate address never has a lower priority than a later one |
| Signaling.GenerateInviteCode | src/network/signaling.rs:616-625 | the code is six characters, each the alphabet character at its drawn index |
| Signaling.AlphabetIsAscii | src/network/signaling.rs:610 | the alphabet has 31 characters, all single-byte |
| Signaling.AsciiLen | src/network/signaling.rs:628-630 | for single-byte characters the UTF-8 length equals the character count |
| Signaling.LenEqualMeansAscii | src/network/signaling.rs:628-630 | a string whose UTF-8 length equals its character count has only single-byte characters |
| Signaling.LenAtLeastCount | src/network/signaling.rs:628-630 | the UTF-8 length is never below the character count |
| Signaling.GeneratedCodeHasFormat | src/network/signaling.rs:616-630 | every generated code passes the format check |
| Signaling.FormatCodeIsGeneratable | src/network/signaling.rs:616-630 | every six-character string that passes the check can be drawn by the generator |
| Signaling.IndexIn | src/network/signaling.rs:616-630 | a character of a string has an index at which it occurs |
| Signaling.InviteFormatAliasesWideCharacters | src/network/signaling.rs:628-630 | because the check casts each character to a byte and measures the length in bytes, a five-character string containing U+0141 passes it |
| Signaling.AsciiInviteChar | src/network/signaling.rs:628-630 | for a single-byte character, passing the check means being in the alphabet |
| Signaling.LookAlikesExcluded | src/network/signaling.rs:608-610 | lower-case letters and 0, O, I, 1 and L are not in the alphabet |
| Signaling.InviteFormatRejects | src/network/signaling.rs:879-886 | a six-character string with a look-alike or a lower-case letter fails the check |
| Signaling.IsInviteCodeFormat | src/network/signaling.rs:628-630 | an accepted code has between 1 and 6 characters |
| Signaling.InviteCodeAfterRetries | src/network/signaling.rs:385-396 | the chosen code is one of the 101 draws; when one of them is free it is the first free one, so it is not in use |
| Signaling.ChooseInviteCode | src/network/signaling.rs:385-396 | the `while` loop chooses exactly the code `InviteCodeAfterRetries` describes |
| Signaling.LookupRoom | src/network/signaling.rs:442-456 | an ID in invite-code format finds a room with that code, any other ID finds the room with that ID, and None means no room matches |
| Signaling.RemovePeer | src/network/signaling.rs:346-361 | leaving an unknown room changes nothing and announces nothing; otherwise no room is added, the peer is no longer in its room if the room stays, and other rooms are unchanged |
| Signaling.RemovePeerEffect | src/network/signaling.rs:346-361 | the peer leaves its room, PeerLeft is broadcast, the room goes exactly when it empties, and no other room changes |
| Signaling.LeaveRoomLeaves | src/network/signaling.rs:510-527 | LeaveRoom inside a room removes the peer as the disconnect cleanup does, clears the connection and sends no reply |
| Signaling.LeaveOutsideRoom | src/network/signaling.rs:510-527 | LeaveRoom outside a room changes no room and broadcasts nothing |
| Signaling.DisconnectIsLeave | src/network/signaling.rs:346-361 | the disconnect cleanup has the same effect as LeaveRoom |
| Signaling.Disconnect | src/network/signaling.rs:346-361 | a connection without a room or peer changes nothing; otherwise no room is added and the peer is no longer in its room if the room stays |
| Signaling.JoinRejected | src/network/signaling.rs:457-507 | a refused join reports the first failing check (room not found, invalid password, room full) and changes nothing |
| Signaling.Join | src/network/signaling.rs:457-503 | a join always replies, with an error or with RoomJoined; it broadcasts exactly when it is not refused; a refusal changes nothing; an admission keeps the set of rooms and sets the connection's peer ID |
| Signaling.JoinAdmits | src/network/signaling.rs:457-503 | an admitted join adds exactly the new peer, replies with the peers already there, announces the joiner, and leaves other rooms alone |
| Signaling.JoinKeepsPreviousRoom | src/network/signaling.rs:476-497 | joining a second room does not take the connection's old peer out of the first |
| Signaling.JoinerSkipsOwnArrival | src/network/signaling.rs:327-333 | a joiner's connection does not forward the announcement of its own arrival |
| Signaling.ShouldForward | src/network/signaling.rs:327-333 | a broadcast is withheld only when it is a PeerJoined or PeerUpdated announcing the connection's own peer |
| Signaling.ListRoomsReports | src/network/signaling.rs:557-572 | ListRooms reports every room and nothing else, each with its peer count, a capacity of ten, its password flag and its code |
| Signaling.CreateRoomEffect | src/network/signaling.rs:375-434 | CreateRoom makes a one-peer room under the drawn ID and joins the connection to it; when a draw is free, the room's invite code is unique |
| Signaling.ProcessKeepsValid | src/network/signaling.rs:367-598 | every message keeps each room stored under its own ID, with one to ten peers keyed by their IDs |
| Signaling.Process | src/network/signaling.rs:367-598 | only CreateRoom, JoinRoom, LeaveRoom and UpdatePeerInfo change the rooms; exactly CreateRoom, JoinRoom and ListRooms reply; only JoinRoom, LeaveRoom, UpdatePeerInfo and ChatMessage broadcast, and each broadcast names a room that the new rooms map holds |
| Signaling.JoinKeepsValid | src/network/signaling.rs:435-507 | an admitted or refused join keeps the rooms well formed |
| Signaling.PeersKeepValid | src/network/signaling.rs:476-486 | giving a room a non-empty peer table, within the limit and keyed by peer ID, keeps the rooms well formed |
| Signaling.RemoveKeepsValid | src/network/signaling.rs:346-361 | removing a peer keeps the rooms well formed |
| Session.ConnectedPeers | src/network/session.rs:207-214 | a broadcast goes to exactly the peers that are marked connected |
| Session.AudioBuffers | src/network/session.rs:315-322 | there is at most one buffer per peer, and none exactly when no peer has audio |
| Session.MaxLen | src/network/session.rs:325 | the result is the length of the longest buffer, or 0 when there are no buffers |
| Session.SoftClip | src/network/session.rs:350-356 | a value below 0.5 in magnitude passes unchanged |
| Session.SoftClipCompresses | src/network/session.rs:350-372 | no output reaches full scale; a value at or above 0.5 in magnitude keeps its sign and clips into [0.5, 1), strictly above 0.5 once the input is |
| Session.MixAudio | src/network/session.rs:314-347 | the mix has one slot per sample of the longest buffer, each the soft-clipped sum of every buffer's sample there divided by the number of sources |
| Session.Accumulate | src/network/session.rs:333-340 | after the loop over the buffers, each slot holds the sum, over n, of the buffers' samples at that index |
| Session.SilentWithoutAudio | src/network/session.rs:314-323 | the mix gets no buffers exactly when no peer holds audio |
| Session.ContributionOfEqualSamples | src/network/session.rs:333-340 | when every buffer holds the same sample at a slot, the mix there is that sample: mixing averages |
| Session.QuietSoloPassesThrough | src/network/session.rs:314-356 | a single source whose samples are all below 0.5 in magnitude comes through the mix unchanged |
| Session.Session.constructor | src/network/session.rs:72-88 | a new session has the given config and peer ID, no peers, is not running, and starts at sequence 0 |
| Session.Session.AddPeer | src/network/session.rs:101-126 | a full table refuses with SessionFull; a peer already present is accepted and left as it was; a new peer is added, so the table never exceeds the maximum |
| Session.Session.RemovePeer | src/network/session.rs:129-134 | exactly that peer, if present, is taken out |
| Session.Session.Start | src/network/session.rs:163-171 | the session runs afterwards, and the receive loop is spawned only when it was not already running |
| Session.Session.Stop | src/network/session.rs:179-193 | the session stops and its receive loop is aborted |
| Session.Session.BroadcastAudio | src/network/session.rs:196-217 | a stopped session refuses with NotConnected; a running one builds one audio packet under the next sequence and sends it to exactly the connected peers |
| Session.Session.SendAudioTo | src/network/session.rs:220-237 | an unknown peer is reported as PeerNotFound with its ID's text and uses no sequence; otherwise the packet goes to that peer's address under the next sequence |
| Session.AddThenRemove | src/network/session.rs:101-134 | adding a new peer and then removing it leaves the table as it was |
| Ids.Hex | src/network/session.rs:226-228 | `x` is written with exactly `width` lower-case hexadecimal digits |
| Ids.HexRoundTrip | src/network/session.rs:226-228 | reading the digits back gives the number that was written |
| Ids.GroupsOf | src/network/session.rs:226-228 | the 128-bit identifier splits into the 8-4-4-4-12 digit groups, which recombine to it |
| Ids.UuidText | src/network/session.rs:226-228 | the text is 36 characters long, with hyphens at positions 8, 13, 18 and 23 |
| Ids.UuidTextInjective | src/network/session.rs:226-228 | distinct identifiers have distinct texts, so a PeerNotFound error names the peer unambiguously |
| Ids.TextDetermines | src/network/session.rs:226-228 | each digit group reads back from its slice of the text |
| Encryption.FromSharedSecret | src/network/encryption.rs:63-94 | the derived key is 32 bytes and the nonce prefix 4 |
| Encryption.RolesUseDistinctLabels | src/network/encryption.rs:66-84 | the initiator and responder expand with different labels, and no key label equals a prefix label |
| Encryption.DeriveNonce | src/network/encryption.rs:118-124 | the 12-byte nonce is the prefix, then the sequence big-endian, then four zero bytes |
| Encryption.NoncesDistinct | src/network/encryption.rs:118-124 | within one context, distinct sequences get distinct nonces, so no nonce is reused |
| Encryption.Encrypt | src/network/encryption.rs:97-104 | encryption succeeds exactly when the cipher seals under the sequence's nonce; otherwise it fails with "Encryption failed" |
| Encryption.Decrypt | src/network/encryption.rs:107-114 | decryption succeeds exactly when the cipher opens under the sequence's nonce; otherwise it fails with "Decryption failed" |
| Encryption.EncryptDecrypt | src/network/encryption.rs:229-246 | under a correct cipher, contexts derived from the same secret and role decrypt each other's ciphertext back to the plaintext |
| Encryption.Seal | src/network/encryption.rs:148-160 | the sealed packet has the same header with the encrypted flag set and the encrypted payload; an encryption failure passes through |
| Encryption.SendTo | src/network/encryption.rs:148-166 | an encryption failure is returned before anything is sent; otherwise the socket's result is returned |
| Encryption.Open | src/network/encryption.rs:169-191 | undecodable bytes give InvalidPacket; otherwise the payload is decrypted under the packet's sequence and the encrypted flag is cleared, and a decryption failure is returned |
| Encryption.SealOpen | src/network/encryption.rs:148-191 | a packet one peer seals and a peer with the matching context opens comes back unchanged, except that its encrypted flag is cleared |
| Codec.FromFlags | src/audio/codec.rs:20-26 | the codec is Opus exactly when the low two bits of the flags are 1; anything else reads as PCM |
| Codec.ToFlags | src/audio/codec.rs:29-34 | the tag fits in the low two bits |
| Codec.FlagsRoundTrip | src/audio/codec.rs:20-34 | reading back the flags a codec type writes gives that codec type |
| Codec.FlagsIgnoreHighBits | src/audio/codec.rs:20-26 | bits above the low two never change the codec read from the flags |
| Codec.IsAvailable | src/audio/codec.rs:37-45 | PCM is always available; Opus is available exactly in a build with the `opus-codec` feature |
| Codec.NewPcm | src/audio/codec.rs:151-156 | a PCM codec takes the configured frame size and channel count |
| Codec.Encode | src/audio/codec.rs:160-164 | PCM encoding always succeeds and writes each sample as four little-endian bytes, in order |
| Codec.Decode | src/audio/codec.rs:166-179 | PCM decoding fails with InvalidData exactly when the length is not a multiple of four; otherwise it gives one sample per four little-endian bytes |
| Codec.DecodeEncode | src/audio/codec.rs:360-385 | decoding what was encoded gives the samples back bit for bit |
| Codec.EncodeDecode | src/audio/codec.rs:160-179 | encoding what was decoded gives the bytes back |
| Codec.DecodePlc | src/audio/codec.rs:181-186 | PCM concealment is silence, `frame_size` samples for each channel |
| Codec.CreateCodec | src/audio/codec.rs:343-353 | PCM always succeeds; Opus is NotAvailable without the feature, and with it succeeds unless the library fails to initialise |
| Codec.CreateIffAvailable | src/audio/codec.rs:418-426 | when the library starts, a codec is created exactly when its type is available |
| Plc.Clamp01 | src/audio/plc.rs:52-67 | the factor is clamped into [0, 1], and a factor already inside is kept |
| Plc.Silence | src/audio/plc.rs:86-89 | silence is `n` zero samples |
| Plc.Attenuate | src/audio/plc.rs:95 | every sample of the frame is scaled by the gain |
| Plc.PowFades | src/audio/plc.rs:91-92 | raising a factor in [0, 1] to a higher power never makes it larger, and it stays in [0, 1] |
| Plc.AttenuateQuieter | src/audio/plc.rs:95 | a smaller non-negative gain never makes a sample louder |
| Plc.DefaultGains | src/audio/plc.rs:123-158 | the default factor gives gains 0.85, 0.7225 and 0.614125 on the first three losses |
| Plc.Concealment | src/audio/plc.rs:82-96 | past the limit the frame is silence; within it, the last frame times the factor raised to the number of losses |
| Plc.ConcealmentFades | src/audio/plc.rs:142-158 | within the limit, each further concealment of the same frame is at most as loud as the one before |
| Plc.ConcealmentNeverLouder | src/audio/plc.rs:82-96 | with a factor in [0, 1], no concealed sample is louder than the last good frame's sample at the same index |
| Plc.PcmPlc.New | src/audio/plc.rs:33-43 | a new concealer has a silent last frame, no losses, a limit of 5 and a factor of 0.85 |
| Plc.PcmPlc.WithConfig | src/audio/plc.rs:52-67 | as `new`, with the given limit and the factor clamped into [0, 1] |
| Plc.PcmPlc.StoreFrame | src/audio/plc.rs:72-76 | the frame becomes the last good frame, the run of losses ends so it is no longer concealing, and the loss limit and factor stay in range |
| Plc.PcmPlc.GenerateConcealment | src/audio/plc.rs:82-96 | one more loss is counted (the counter wraps at 2^32) and the output is `Concealment` for the new count, never louder than the last frame; it is concealing afterwards unless the counter wrapped to zero |
| Plc.PcmPlc.Reset | src/audio/plc.rs:101-105 | the last frame becomes silence, the loss count returns to zero and it is no longer concealing |
| Plc.PcmPlc.ConsecutiveLosses | src/audio/plc.rs:108-110 | the number of losses since the last good frame |
| Plc.PcmPlc.IsConcealing | src/audio/plc.rs:113-115 | concealing exactly when at least one loss has been counted since the last good frame |
| Plc.FirstAndPastLimit | src/audio/plc.rs:161-196 | after a stored frame, the first loss repeats it at the factor's gain, and the loss just past the limit is silence |
| Metronome.SamplesPerBeat | src/audio/metronome.rs:68 | the beat length is the floor of the wrapped 32-bit `sample_rate * 60` divided by the tempo |
| Metronome.DefaultSamplesPerBeat | src/audio/metronome.rs:27-36 | at 48 kHz the default 120 bpm gives 24000 samples per beat |
| Metronome.ClampBpm | src/audio/metronome.rs:109-112 | the tempo ends up in [20, 300]; one inside is kept, one below becomes 20 and one above becomes 300 |
| Metronome.ClampVolume | src/audio/metronome.rs:120-122 | the volume ends up in [0, 1]; one inside is kept, and one outside goes to the nearer bound |
| Metronome.DivStep | src/audio/metronome.rs:179-187 | the quotient by the beat length grows by one exactly when the new position is a multiple of it |
| Metronome.StepsAdvance | src/audio/metronome.rs:179-187 | after `n` samples the position is the start plus `n`, modulo 2^64 |
| Metronome.Step | src/audio/metronome.rs:179-187 | one sample keeps the beat inside the measure; a new beat or measure starts only on a beat boundary, and a new measure starts at beat 0 |
| Metronome.Steps | src/audio/metronome.rs:152-190 | any number of samples keeps the beat inside the measure |
| Metronome.StepsKeepBeatInMeasure | src/audio/metronome.rs:182-187 | a beat inside the measure stays inside it however many samples go by |
| Metronome.StepCountsBeat | src/audio/metronome.rs:179-187 | away from wrap-around, one sample counts one more beat exactly when it reaches a beat boundary |
| Metronome.StepsCountBeats | src/audio/metronome.rs:179-187 | away from wrap-around, `n` samples advance the beat count by the number of beat boundaries crossed |
| Metronome.ClickAt | src/audio/metronome.rs:157-176 | no sound is written outside the first 50 ms of a beat |
| Metronome.ClickShape | src/audio/metronome.rs:157-176 | sound comes only in a beat's first `sample_rate / 20` samples, where it is the click at the downbeat pitch on beat 0 and the beat pitch otherwise, scaled by the volume |
| Metronome.Silence | src/audio/metronome.rs:148-150 | a stopped metronome writes `n` zero samples |
| Metronome.Clicks | src/audio/metronome.rs:152-188 | `n` steps write exactly `n` samples |
| Metronome.ClicksAt | src/audio/metronome.rs:157-176 | sample `i` is the click at the counters after `i` steps |
| Metronome.RunClicks | src/audio/metronome.rs:157-188 | the `for` loop writes `Clicks` and leaves the counters at `Steps` |
| Metronome.Metronome.New | src/audio/metronome.rs:67-82 | a new metronome is stopped, with all counters zero and the beat length computed from the tempo |
| Metronome.Metronome.Start | src/audio/metronome.rs:85-88 | it runs afterwards, from the beginning |
| Metronome.Metronome.Stop | src/audio/metronome.rs:91-93 | it stops, and the counters stay where they are |
| Metronome.Metronome.Reset | src/audio/metronome.rs:96-101 | all four counters return to zero |
| Metronome.Metronome.IsRunning | src/audio/metronome.rs:104-106 | whether it runs |
| Metronome.Metronome.SetBpm | src/audio/metronome.rs:109-112 | the tempo is clamped into [20, 300] and the beat length is recomputed from it |
| Metronome.Metronome.Bpm | src/audio/metronome.rs:115-117 | the configured tempo |
| Metronome.Metronome.SetVolume | src/audio/metronome.rs:120-122 | the volume is clamped into [0, 1] and nothing else changes |
| Metronome.Metronome.SyncTo | src/audio/metronome.rs:135-143 | the four counters are taken over from the peer exactly |
| Metronome.Metronome.Generate | src/audio/metronome.rs:147-198 | when stopped, `n` zeros and no change; when running, the clicks at successive counter positions, with the counters moved on by `n` samples |
| Metronome.FromMetronome | src/audio/metronome.rs:225-234 | a sync message carries the tempo, the metre and the position of the metronome |
| Metronome.ToBytes | src/audio/metronome.rs:237-245 | the message is 24 bytes: the five fields, big-endian, in declaration order |
| Metronome.FromBytes | src/audio/metronome.rs:248-261 | reading fails exactly when there are fewer than 24 bytes |
| Metronome.SyncRoundTrip | src/audio/metronome.rs:301-312 | a sync message survives the trip over the wire unchanged |
| Metronome.SyncFromBytesPrefix | src/audio/metronome.rs:237-261 | writing back what was read reproduces the first 24 bytes, and bytes after them are ignored |
| Metronome.FromBytesReadsPrefix | src/audio/metronome.rs:248-261 | only the first 24 bytes decide what is read |
| Recording.FormatTag | src/audio/recording.rs:235 | the format tag is 3 (IEEE float) exactly for 32-bit samples and 1 (integer PCM) otherwise |
| Recording.WavHeader | src/audio/recording.rs:215-247 | the header is 44 bytes |
| Recording.RiffFields | src/audio/recording.rs:226-228 | the RIFF chunk reads "RIFF", then 36 plus the data size (wrapping), then "WAVE" |
| Recording.FmtFields | src/audio/recording.rs:231-239 | the fmt chunk reads back its size of 16, the format tag, the channels, the rate, the byte rate, the block alignment and the depth |
| Recording.HeaderFields | src/audio/recording.rs:215-247 | the whole header reads back field by field at the offsets the WAV format lays down, ending with "data" and the data size |
| Recording.HeaderExample | src/audio/recording.rs:315-322 | for 48 kHz stereo 16-bit audio with 1000 data bytes, the header carries 1036, format 1, byte rate 192000 and block alignment 4 |
| Recording.ByteRate | src/audio/recording.rs:222 | without overflow, the byte rate is the rate times channels times depth, divided by 8 |
| Recording.BlockAlign | src/audio/recording.rs:223 | without overflow, the block alignment is channels times depth, divided by 8 |
| Recording.Finalise | src/audio/recording.rs:250-274 | the rewritten file keeps its length and its data, and its first 44 bytes are the header for the data size written |
| Recording.ClampUnit | src/audio/recording.rs:141 | a sample is clamped into [-1, 1], and one inside is kept |
| Recording.Trunc | src/audio/recording.rs:141 | the float-to-integer cast rounds toward zero |
| Recording.TruncScaled | src/audio/recording.rs:141-149 | a clamped sample scaled by a full-scale value rounds to an integer within plus or minus that value |
| Recording.Level16 | src/audio/recording.rs:141 | a 16-bit level lies in [-32767, 32767] |
| Recording.Level24 | src/audio/recording.rs:149 | a 24-bit level lies in [-8388607, 8388607] |
| Recording.BytesPerSample | src/audio/recording.rs:138-168 | a sample at a supported depth (16, 24 or 32 bits) takes `bits / 8` bytes; at any other depth it is not written |
| Recording.EncodeSample | src/audio/recording.rs:139-161 | one sample takes exactly its depth's width |
| Recording.Sample16Reads | src/audio/recording.rs:140-145 | a 16-bit sample's two bytes read back, signed little-endian, as its level |
| Recording.Sample24Reads | src/audio/recording.rs:147-154 | the low three bytes of the 32-bit 24-bit level read back, signed little-endian, as that level |
| Recording.Low24ReadsNonneg | src/audio/recording.rs:150-151 | for a non-negative level, the low three bytes read back as the level |
| Recording.Low24ReadsNeg | src/audio/recording.rs:150-151 | for a negative level in two's complement, the low three bytes read back as the level |
| Recording.EncodeSamples | src/audio/recording.rs:138-162 | the samples take their count times the sample width |
| Recording.EncodeSamplesAt | src/audio/recording.rs:138-162 | sample `k`'s bytes start at `k` times the sample width |
| Recording.EncodeAll | src/audio/recording.rs:138-162 | the conversion loop writes exactly `EncodeSamples` |
| Recording.FinaliseMatchesData | src/audio/recording.rs:78-128 | a finalised recording is a consistent WAV file: the data follows the header unchanged, the data size is its length, and the RIFF size is the file length minus 8 |
| Recording.Recorder.New | src/audio/recording.rs:34-44 | a new recorder is not recording, has no file, and has written nothing |
| Recording.Recorder.Start | src/audio/recording.rs:47-75 | it is refused while recording, when the file cannot be created and when the header cannot be written, each time leaving the recorder unchanged; otherwise the file holds a header with data size 0 and recording starts at zero samples |
| Recording.Recorder.Stop | src/audio/recording.rs:78-128 | it is refused when not recording; otherwise recording ends; a missing writer and a failed flush, release of the file or header rewrite are reported and leave the file and its path as they were; on success the header carries the data size and the path and sizes are returned |
| Recording.Recorder.WriteSamples | src/audio/recording.rs:131-176 | nothing is written unless recording with a writer; an unsupported depth is an error before any write; otherwise the encoded samples are added and the count grows, wrapping at 2^64 |
| Recording.Recorder.IsRecording | src/audio/recording.rs:179-181 | whether it is recording |
| Recording.Recorder.SamplesWritten | src/audio/recording.rs:184-186 | the number of samples written |
| Recording.AppendKeepsHeader | src/audio/recording.rs:131-176 | writing samples never touches the header bytes |
| Recording.CounterWraps | src/audio/recording.rs:171-172 | adding to the wrapped sample counter gives the wrapped sum |
| Effects.DbToLinear | src/audio/effects.rs:500-502 | a level in dB converts to a positive linear gain |
| Effects.Clamp | src/audio/effects.rs:157 | the value ends up within the bounds, and one already inside is kept |
| Effects.NewGain | src/audio/effects.rs:33-38 | a new gain is enabled, with the linear gain of the given dB |
| Effects.SetGainDb | src/audio/effects.rs:40-42 | only the gain changes, to the linear value of the new dB |
| Effects.LowPassAlpha | src/audio/effects.rs:97-101 | for a positive cutoff and rate, the low-pass factor lies strictly between 0 and 1 |
| Effects.HighPassAlpha | src/audio/effects.rs:161-165 | for a positive cutoff and rate, the high-pass factor lies strictly between 0 and 1 |
| Effects.AlphasComplement | src/audio/effects.rs:97-101 | at the same cutoff and rate, the low-pass and high-pass factors add up to one |
| Effects.NewLowPass | src/audio/effects.rs:80-90 | a new low-pass filter is enabled, has no history, and has the factor for its cutoff |
| Effects.NewHighPass | src/audio/effects.rs:143-154 | a new high-pass filter is enabled, has no history, and has the factor for its cutoff |
| Effects.SetCutoff | src/audio/effects.rs:92-95 | the cutoff is clamped into [20 Hz, rate/2], the factor is recomputed, and the history is kept |
| Effects.NewCompressor | src/audio/effects.rs:218-229 | a new compressor: -20 dB threshold, 4:1 ratio, 10 ms attack, 100 ms release, no makeup gain, zero envelope |
| Effects.NewNoiseGate | src/audio/effects.rs:374-383 | a new gate: -40 dB threshold, 1 ms attack, 50 ms release, shut |
| Effects.AsUsize | src/audio/effects.rs:300 | the float-to-usize cast rounds down within range and saturates outside it |
| Effects.DelaySize | src/audio/effects.rs:300 | the buffer holds one slot more than the delay in samples; only the saturated cast, whose `+ 1` wraps, can give zero |
| Effects.NewDelay | src/audio/effects.rs:299-310 | a new delay is enabled, with 0.3 feedback, an even mix, a silent buffer of that size, and writing at slot 0 |
| Effects.Resize | src/audio/effects.rs:315-316 | the buffer gets the new length, keeps its leading samples, and is extended with zeros |
| Effects.SetDelay | src/audio/effects.rs:312-319 | a new buffer size resizes the buffer and reduces the write position modulo the new length; the same size changes only the delay time |
| Effects.DelayStaysWellFormed | src/audio/effects.rs:299-319 | a new delay has its write position inside a non-empty buffer, and `set_delay` keeps it so |
| Effects.ResetEffect | src/audio/effects.rs:55-411 | each effect's carried state goes back to silence (filter history, envelope, delay buffer and position, gate), and nothing else changes |
| Effects.SetEnabled | src/audio/effects.rs:65-423 | only the enabled flag changes |
| Effects.Scaled | src/audio/effects.rs:50-52 | every sample is multiplied by the gain |
| Effects.GainProcess | src/audio/effects.rs:46-53 | the loop scales the samples in place |
| Effects.LowPassRun | src/audio/effects.rs:109-112 | one output per input, and the carried state is the last output |
| Effects.LowPassRunSnoc | src/audio/effects.rs:109-112 | one more sample smooths from the state the earlier ones left |
| Effects.LowPassProcess | src/audio/effects.rs:105-113 | the loop writes `LowPassRun` in place and returns its state |
| Effects.SmoothBounded | src/audio/effects.rs:110 | one smoothing step never leaves a bound that its inputs respect |
| Effects.LowPassBounded | src/audio/effects.rs:105-113 | low-pass outputs never leave a bound that the previous output and every input respect |
| Effects.HighPassRun | src/audio/effects.rs:173-178 | one output per input, and the carried state is the last input and the last output |
| Effects.HighPassRunSnoc | src/audio/effects.rs:173-178 | one more sample filters from the state the earlier ones left |
| Effects.HighPassProcess | src/audio/effects.rs:169-179 | the loop writes `HighPassRun` in place and returns its state |
| Effects.DecaysSnoc | src/audio/effects.rs:173-178 | a sequence in which each value is the one before times the factor stays so when another such value is added |
| Effects.HighPassBlocksConstant | src/audio/effects.rs:634-644 | on a constant input, the high-pass output decays geometrically by the factor |
| Effects.HighPassOutOnRepeat | src/audio/effects.rs:174-175 | on a repeated input, the output is the previous output times the factor |
| Effects.CompressorCoeffsOf | src/audio/effects.rs:238-241 | the threshold and makeup gains are positive, and the ratio is the compressor's own |
| Effects.CompressorRun | src/audio/effects.rs:243-263 | one output per input |
| Effects.CompressorRunSnoc | src/audio/effects.rs:243-263 | one more sample moves the envelope and is gained from the state the earlier ones left |
| Effects.CompressorProcess | src/audio/effects.rs:233-264 | the loop writes `CompressorRun` in place and returns the envelope |
| Effects.FollowBounded | src/audio/effects.rs:247-251 | with factors in [0, 1], the envelope stays within any bound that it and the input level respect |
| Effects.CompressorBelowThreshold | src/audio/effects.rs:243-263 | with the envelope and every input at or under the threshold, the envelope stays there and the compressor applies only the makeup gain |
| Effects.CompressedAtUnity | src/audio/effects.rs:254-262 | at or under the threshold a sample gets only the makeup gain |
| Effects.ScaledSnoc | src/audio/effects.rs:50-52 | scaling a longer sequence scales the added sample the same way |
| Effects.GateCoeffsOf | src/audio/effects.rs:392-394 | the gate threshold is positive |
| Effects.GateRun | src/audio/effects.rs:396-406 | one output per input |
| Effects.GateRunSnoc | src/audio/effects.rs:396-406 | one more sample moves the opening and is gated from the state the earlier ones left |
| Effects.GateProcess | src/audio/effects.rs:387-407 | the loop writes `GateRun` in place and returns the new opening |
| Effects.GateStepInUnit | src/audio/effects.rs:397-403 | with factors in [0, 1], one step keeps the opening in [0, 1] |
| Effects.GatedQuieter | src/audio/effects.rs:405 | gating by an opening in [0, 1] never makes a sample louder |
| Effects.GateAttenuates | src/audio/effects.rs:387-407 | the opening stays between shut and open, so no output is louder than its input |
| Effects.DelayRun | src/audio/effects.rs:330-338 | one output per input; the line stays well formed with its length unchanged |
| Effects.DelayStep | src/audio/effects.rs:331-337 | one sample reads the current slot, rewrites only that slot, mixes the dry and delayed signals, and moves to the next slot round the ring |
| Effects.DelayRunSnoc | src/audio/effects.rs:330-338 | one more sample runs from the line the earlier ones left |
| Effects.DelayProcess | src/audio/effects.rs:323-339 | the loop writes `DelayRun` in place and returns the new line |
| Effects.DelayAdvances | src/audio/effects.rs:337 | over `n` samples the write position advances by `n` round the ring |
| Effects.DelayUntouched | src/audio/effects.rs:330-338 | a slot the run does not reach keeps its old sample |
| Effects.ResiduesDistinct | src/audio/effects.rs:337 | fewer than a buffer length of consecutive positions fall on distinct slots |
| Effects.FirstPassReadsOriginal | src/audio/effects.rs:330-338 | within one pass round the ring, each read finds the slot as it was before the run |
| Effects.DelayRunPrefix | src/audio/effects.rs:330-338 | a run over a prefix writes a prefix of the output |
| Effects.FreshDelaySilent | src/audio/effects.rs:547-556 | a fully wet delay with a silent buffer is silent for its first buffer length of samples |
| Effects.Process | src/audio/effects.rs:46-407 | a disabled effect, or a delay with an empty buffer, changes nothing; otherwise the effect runs its own loop, one output per sample, and stays well formed with the same kind and settings |
| Effects.DisabledBypass | src/audio/effects.rs:620-631 | a disabled effect of any kind passes every buffer through untouched |
| Effects.Name | src/audio/effects.rs:57-415 | every effect has a non-empty name |
| Effects.NamesDistinct | src/audio/effects.rs:57-415 | two effects share a name exactly when they are of the same kind |
| Effects.Active | src/audio/effects.rs:46-407 | a disabled effect, and a delay with an empty buffer, leave the samples alone |
| Effects.ProcessInPlace | src/audio/effects.rs:46-407 | the effect's loop in place computes `Process` |
| Effects.ChainStep | src/audio/effects.rs:472-474 | each effect of the chain runs on what the effects before it produced |
| Effects.RunChain | src/audio/effects.rs:468-475 | every effect is kept, each updated by its own run, and the buffer keeps its length |
| Effects.DisabledChainBypass | src/audio/effects.rs:468-475 | a chain of disabled effects changes neither the samples nor the effects |
| Effects.AddedRunsLast | src/audio/effects.rs:440-475 | an added effect runs last, on what the chain produced before |
| Effects.EffectChain.constructor | src/audio/effects.rs:433-438 | a new chain is empty and enabled |
| Effects.EffectChain.Add | src/audio/effects.rs:440-442 | the effect goes on the end |
| Effects.EffectChain.Remove | src/audio/effects.rs:444-450 | a valid index gives back that effect, with the rest closing up behind it; any other index gives None and changes nothing |
| Effects.EffectChain.Get | src/audio/effects.rs:452-454 | an effect comes back exactly for an index in range, and it is the effect at that index |
| Effects.EffectChain.Len | src/audio/effects.rs:460-462 | the number of effects |
| Effects.EffectChain.IsEmpty | src/audio/effects.rs:464-466 | empty exactly when it holds no effects |
| Effects.EffectChain.IsEnabled | src/audio/effects.rs:487-489 | the chain's enabled flag |
| Effects.EffectChain.Process | src/audio/effects.rs:468-475 | a disabled chain changes nothing; an enabled one runs `RunChain` on the samples in place |
| Effects.EffectChain.Reset | src/audio/effects.rs:477-481 | every effect is reset and the chain keeps its length |
| Effects.EffectChain.SetEnabled | src/audio/effects.rs:483-485 | only the enabled flag changes |
| Config.FromName | src-tauri/src/config.rs:89-97 | a name gives the preset whose name it is, and every other name gives None |
| Config.BufferSize | src-tauri/src/config.rs:59-66 | every preset's buffer size is one of the sizes validation accepts |
| Config.JitterBufferFrames | src-tauri/src/config.rs:69-76 | only zero-latency has no jitter-buffer frames, and the frames never exceed the buffer size divided by 32 |
| Config.Name | src-tauri/src/config.rs:79-86 | a preset's name is non-empty lower-case letters and hyphens |
| Config.NameRoundTrip | src-tauri/src/config.rs:79-97 | reading back a preset's name gives that preset |
| Config.AllPresetsOrdered | src-tauri/src/config.rs:59-107 | every preset is listed, and along the list both the buffer size and the jitter-buffer depth strictly grow |
| Config.Info | src-tauri/src/config.rs:386-395 | a preset's entry carries an ID that names that preset |
| Config.ListPresets | src-tauri/src/config.rs:386-395 | the list has one entry per preset, in the order of `all` |
| Config.Validate | src-tauri/src/config.rs:173-193 | a configuration is accepted exactly when its buffer size is supported and any server URL it sets is a WebSocket URL; the buffer size is checked first, each with its own message |
| Config.ValidateExamples | src-tauri/src/config.rs:527-563 | the default and the tests' valid configurations are accepted; buffer size 100 and an http URL are refused |
| Config.ValidateSeesOnlySizeAndUrl | src-tauri/src/config.rs:173-193 | only the buffer size and the server URL decide validation |
| Config.WithPreset | src-tauri/src/config.rs:365-382 | switching preset sets the preset and its buffer size and nothing else |
| Config.PresetKeepsValid | src-tauri/src/config.rs:365-382 | every preset's buffer size is a supported one, so switching preset keeps a valid configuration valid |
| Config.LoadConfig | src-tauri/src/config.rs:258-275 | loading succeeds exactly when the file exists, parses and validates, and then gives the parsed configuration; a configuration that parses but does not validate gives the validation error |
| Config.Commit | src-tauri/src/config.rs:219-231 | an invalid configuration is refused and the stored one kept; a valid one is stored and the outcome of saving it is returned |
| Config.CommitKeepsValid | src-tauri/src/config.rs:219-231 | the stored configuration stays valid whatever is committed |
| Config.CommitOfValidEdit | src-tauri/src/config.rs:219-231 | an edit that touches neither the buffer size nor the URL is always stored |
| Config.Retain | src-tauri/src/config.rs:425-427 | the entries kept are exactly those with another room code |
| Config.RetainAppend | src-tauri/src/config.rs:425-427 | the kept entries stay in their order |
| Config.RetainAbsent | src-tauri/src/config.rs:449-458 | a history without the code is left as it is |
| Config.RetainUnique | src-tauri/src/config.rs:425-427 | removing entries keeps room codes unique |
| Config.Truncate | src-tauri/src/config.rs:440 | truncation keeps the first `n` entries, or all of them when there are fewer |
| Config.AddToHistory | src-tauri/src/config.rs:417-443 | the new entry is first, there are one to ten entries, and every other entry was in the history with a different room code |
| Config.AddToHistoryShape | src-tauri/src/config.rs:417-443 | after adding, the new entry is first and the only one with its code, there are at most ten entries, and the rest are the other entries in their old order, as many as fit |
| Config.AddToHistoryUnique | src-tauri/src/config.rs:417-443 | adding keeps room codes unique |
| Config.AddToHistoryAgain | src-tauri/src/config.rs:417-443 | adding the same entry twice is the same as adding it once |
| Config.FirstWithCode | src-tauri/src/config.rs:470-486 | the index found is the first entry with the code, and None means no entry has it |
| Config.Relabel | src-tauri/src/config.rs:470-486 | relabelling fails exactly when no entry has the code; otherwise one entry, the first with the code, gets the new label and the length is kept |
| Config.CheckPeerName | src-tauri/src/config.rs:505-515 | the trimmed name is accepted exactly when it is non-empty and at most 32 bytes of UTF-8 |
| Config.PeerNameStable | src-tauri/src/config.rs:505-515 | an accepted name is accepted again unchanged |
| Config.PeerNameCountsBytes | src-tauri/src/config.rs:512-514 | seventeen 'é' make 17 characters but 34 bytes, and are refused |
| Config.ConfigState.constructor | src-tauri/src/config.rs:203-208 | the state starts with the configuration that loads, or with the default when loading fails |
| Config.ConfigState.Update | src-tauri/src/config.rs:219-231 | the state changes as `Commit` says, and a valid stored configuration stays valid |
| Config.ConfigState.SetServerUrl | src-tauri/src/config.rs:336-343 | the configuration with the new URL is committed |
| Config.ConfigState.SetPreset | src-tauri/src/config.rs:365-382 | an unknown name is refused and changes nothing; a known one commits the preset and its buffer size |
| Config.ConfigState.AddConnectionHistory | src-tauri/src/config.rs:417-443 | the history with the new entry added as `AddToHistory` says is committed |
| Config.ConfigState.RemoveConnectionHistory | src-tauri/src/config.rs:449-458 | the history without the room code is committed |
| Config.ConfigState.ClearConnectionHistory | src-tauri/src/config.rs:462-466 | an empty history is committed |
| Config.ConfigState.UpdateConnectionHistoryLabel | src-tauri/src/config.rs:470-486 | a code in no entry is refused and changes nothing; otherwise the relabelled history is committed |
| Config.ConfigState.SetPeerName | src-tauri/src/config.rs:505-520 | a refused name changes nothing; an accepted one is committed trimmed |
| Config.HistoryEditsAlwaysCommit | src-tauri/src/config.rs:417-520 | on a valid configuration, the history and peer-name commands always store their edit and return the outcome of saving |
| EchoServer.ReadyCount | src/bin/echo_server.rs:100-115 | the count covers exactly the due packets at the front of the queue: each of them is due, and the next one, if any, is not |
| EchoServer.AppendInOrder | src/bin/echo_server.rs:89-97 | a packet due no earlier than the last one keeps the queue ordered by due time |
| EchoServer.NothingDueLeft | src/bin/echo_server.rs:100-115 | in an ordered queue, nothing after the ready prefix is due |
| EchoServer.Dispatch | src/bin/echo_server.rs:262-282 | audio packets are queued, keep-alives are echoed at once, and everything else is ignored |
| EchoServer.ReadyCountIs | src/bin/echo_server.rs:100-115 | the ready count is the only place where the due prefix stops |
| EchoServer.TakeDue | src/bin/echo_server.rs:104-112 | the loop pops exactly the ready prefix, and the rest stays queued |
| EchoServer.EchoState.constructor | src/bin/echo_server.rs:79-86 | a new state has an empty queue, no packets counted, and the given delay |
| EchoServer.EchoState.AddPacket | src/bin/echo_server.rs:89-97 | the packet joins the back of the queue, due one delay after now, and is counted as received |
| EchoServer.EchoState.GetReadyPackets | src/bin/echo_server.rs:100-115 | the due packets at the front come off in order and the rest stay; in an ordered queue nothing due is left behind |
| EchoServer.EchoState.EchoBatch | src/bin/echo_server.rs:232-249 | every successful send is counted as sent and a failed one is not, so no more packets are sent than were received |
| EchoServer.EchoState.TimeUntilNext | src/bin/echo_server.rs:118-127 | None exactly for an empty queue; otherwise, for a front packet not yet due, exactly the time from now to its send time, and zero once it is due |
| EchoServer.ArrivalsInOrder | src/bin/echo_server.rs:89-97 | with a fixed delay and a clock that never goes back, the queue stays ordered by due time |
| EchoServer.DrainInOrder | src/bin/echo_server.rs:100-115 | taking off the due packets keeps an ordered queue ordered |
| Evaluate.MixDown | tests/e2e/scripts/pesq/evaluate.py:47-48 | each frame becomes the average of its channels |
| Evaluate.ToMono | tests/e2e/scripts/pesq/evaluate.py:46-48 | a mono file is kept as it is; a multi-channel file gives one sample per frame |
| Evaluate.Resample | tests/e2e/scripts/pesq/evaluate.py:53 | resampling to `n` samples gives exactly `n` samples |
| Evaluate.Convert | tests/e2e/scripts/pesq/evaluate.py:46-59 | the data is made mono; it is resampled only when scipy is there and the rates differ, then to the target rate and `int(len * target / sr)` samples; a source rate of 0 is the division error |
| Evaluate.LoadAudio | tests/e2e/scripts/pesq/evaluate.py:39-59 | without soundfile the load raises its ImportError; a read error passes through; otherwise the file is converted |
| Evaluate.Drop | tests/e2e/scripts/pesq/evaluate.py:76-79 | dropping `k` samples keeps the rest in order, and nothing once `k` passes the end |
| Evaluate.AlignedSlices | tests/e2e/scripts/pesq/evaluate.py:62-83 | the aligned pair has equal lengths and pairs `ref[a + i]` with `deg[b + i]`, where the lag decides which side drops samples; the latency is never negative, and zero without scipy |
| Evaluate.AlignSignals | tests/e2e/scripts/pesq/evaluate.py:62-83 | the aligned pair has equal lengths no longer than either input; the latency is never negative and zero without scipy; with no lag or without scipy both are the inputs' prefixes |
| Evaluate.AlignUndoesDelay | tests/e2e/scripts/pesq/evaluate.py:69-83 | when the degraded signal is the reference arriving `lag` samples late, the aligned pair is the same signal twice and the latency is the lag in milliseconds |
| Evaluate.PesqRate | tests/e2e/scripts/pesq/evaluate.py:111 | wideband mode loads at 16 kHz and any other mode at 8 kHz |
| Evaluate.CalculatePesq | tests/e2e/scripts/pesq/evaluate.py:86-132 | without pesq the record holds only the error; a score is present exactly when there is no error, and a scored record also carries the latency |
| Evaluate.PesqRateMismatch | tests/e2e/scripts/pesq/evaluate.py:117-119 | without scipy, files at different rates are refused before scoring, with no latency and no score |
| Evaluate.PesqRatesAgreeWithScipy | tests/e2e/scripts/pesq/evaluate.py:111-123 | with scipy both files come to the mode's rate, so scoring gets as far as a non-negative latency |
| Evaluate.CorrelationMosRange | tests/e2e/scripts/pesq/evaluate.py:162-168 | the mapped score is at least 1, at most 4.5 for a correlation of at most 1, and `1 + 3.5c` for a non-negative correlation |
| Evaluate.CalculateCorrelationMos | tests/e2e/scripts/pesq/evaluate.py:135-175 | a score and a correlation come together exactly when there is no error, and the score is the mapped correlation |
| Evaluate.EmptyAudioRefused | tests/e2e/scripts/pesq/evaluate.py:152-158 | without scipy, an empty file on either side is refused after alignment with "Empty audio after alignment", and the latency is kept |
| Evaluate.ParseInput | tests/e2e/scripts/pesq/evaluate.py:190-207 | bad JSON input and a missing key exit 1 with an error record, JSON that is not an object is an uncaught TypeError (a traceback, no record, exit 1), and a usage error exits 2; `fallback` is taken by its truthiness; without JSON text the input is accepted exactly when both paths are given and non-empty |
| Evaluate.EvaluateDispatch | tests/e2e/scripts/pesq/evaluate.py:217-223 | the correlation fallback is used exactly when pesq is missing or the fallback is asked for, and the warning is attached exactly when pesq is missing |
| Evaluate.Evaluate | tests/e2e/scripts/pesq/evaluate.py:86-223 | a score has a MOS exactly when it has no error, and a correlation is reported only in correlation mode |
| Evaluate.MainExitStatus | tests/e2e/scripts/pesq/evaluate.py:178-230 | scoring happens exactly for accepted input whose two files exist; a scored run exits 1 exactly when its record has a non-empty error |
| Evaluate.Main | tests/e2e/scripts/pesq/evaluate.py:178-230 | a scored run exits 1 exactly when its record has a non-empty error and 0 otherwise; scoring needs accepted input whose two files exist; an unscored run exits with a non-zero status |
| Evaluate.SoundfileMissingFails | tests/e2e/scripts/pesq/evaluate.py:41-42 | without soundfile, PESQ scoring fails on loading and the script exits 1 |
| Evaluate.EmptyErrorExitsZero | tests/e2e/scripts/pesq/evaluate.py:129-130 | an exception with an empty message leaves an error in the record, yet the script exits 0 because an empty string is false |

## Left out

- Socket and WebSocket I/O is not modelled, only the decisions around it. This covers `src/network/transport.rs`, the datagram sends and the receive and keep-alive loops of `src/network/connection.rs`, the session's receive loop, `EncryptedTransport`'s socket calls, and STUN's `binding_request` and `discover_public_address`. Each send or receive outcome is a parameter.
- In `src/network/signaling.rs`, `SignalingServer::run`, the `select` loop of `handle_connection`, `SignalingClient`, `SignalingConnection` and `gather_candidates` are network and task code and are not modelled. The per-message room transitions and the disconnect cleanup are modelled.
- Threads, tasks and channels are not modelled. Atomics and locks are plain fields, and lock poisoning is not modelled. `src-tauri/src/streaming.rs` and `src-tauri/src/audio_service.rs` are scheduling glue and are not part of this model.
- Audio devices, plugin hosting and FFI are not modelled: `src/audio/engine.rs`, `src/audio/device.rs`, `src/audio/plugin.rs`, `src/audio/plugin/*` and `src/main.rs`. The Opus encoder and decoder are foreign code; only their availability and the codec flags are modelled.
- `src/network/latency.rs` is arithmetic over measured floats and is not part of this model.
- The u64 statistics counters are unbounded `nat` fields and do not wrap. These are the jitter buffer's inserted, played, lost and late counts (`src/network/jitter_buffer.rs:107-113`), the sequence tracker's received and lost counts, the connection's packets and bytes sent, and the echo server's received and sent counts. Only the recorder's sample counter and the metronome position are wrapped at 2^64. At a thousand packets a second, a u64 counter would take over five hundred million years to overflow.
- Floating point is not modelled bit for bit: `f32` values are reals or 32-bit words, with no rounding, NaN or infinity. `exp`, `powf`, `log10`, `powi` and the PLC's `powi` exponent cast to `i32` are not modelled; nor are `SequenceTracker::loss_rate`, `frame_duration_ms` and `jitter_estimate_ms`, which only divide counters as floats.
- Encryption.Encrypt: AES-GCM, HKDF-SHA256 and X25519 are function parameters. The round trip is proved under a stated correctness assumption on the cipher, not about AES-GCM itself.
- Signaling: `RoomJoined.peers` and `RoomList.rooms` are sets. The source fills these lists in `HashMap` iteration order, which is unspecified, so the model abstracts them to sets.
- Randomness (UUID v4, room IDs, invite-code symbols) is an input. `generate_invite_code` is modelled by its output contract over the symbols drawn.
- `src/bin/signaling_server.rs` is left out. It is an older duplicate of the room logic, without invite codes or candidates, and builds messages in shapes the current `src/network/signaling.rs` no longer has. `src-tauri/src/signaling.rs` and the echo server's `setup_signaling` use the same outdated message shapes and are left out too. Of the echo server's `main`, only the packet-type dispatch and the send loop are modelled; argument handling and statistics logging are left out. `src-tauri/src/audio.rs` and `src-tauri/src/lib.rs` are thin command glue and are not part of this model. `tests/e2e/src/*` drives processes and is left out. The error enums of `src/audio/error.rs` and `src/network/error.rs` appear only as the error values the model returns.
- Metronome.Metronome.New: requires `bpm > 0`, because `Metronome::new` divides by the unclamped `bpm` and panics on zero.
- Metronome.Metronome.Generate: requires samples per beat > 0, because the source's `% samples_per_beat` panics when it is zero. Only the counters and click positions are modelled, not the click waveform's floating-point values. `mix_into` is not modelled.
- Recording.Recorder.WriteSamples: the file is a byte sequence, and the per-sample "Write failed" error is not modelled; `duration_secs` and the `Drop` implementation are not modelled either.
- Effects: `EffectChain::get_mut` is not modelled, because the model's chain holds values and has no mutable borrows.
- Effects.NewLowPass: requires `cutoff > 0` and `sampleRate > 0`, because the model has no float division by zero and no infinities. The same holds for Effects.NewHighPass, Effects.LowPassAlpha and Effects.HighPassAlpha.
- Effects.SetCutoff: requires `sampleRate >= 40`, because below that the source's clamp has a maximum under its minimum and panics.
- Effects.SetDelay: requires a new buffer size above zero, because a zero size makes the source's `% buffer.len()` panic.
- Effects.CompressorBelowThreshold: assumes the attack and release coefficients lie in [0, 1], which holds for the coefficients the source computes but is not derived from `exp`. The same holds for Effects.GateAttenuates.
- Config: the TOML file and the filesystem are a parsed-file parameter. The TOML round trip, the getters and the `Debug` text of errors (passed in as a message) are not modelled. Timestamps are a `nat` clock.
- EchoServer: `Instant` is a millisecond clock. The sockets are the outcomes passed in.
- Evaluate: `resample`, `correlate`, `pesq` and `corrcoef` are function parameters. The rounding of the reported scores and the `float32` cast are not modelled: scores are reported unrounded. `int(len * target / sr)` is an exact floor. Exceptions raised inside `correlate`, the difference between a JSON `null` and an absent key, and `argparse`'s `choices` check are not modelled.
- Evaluate.ParseInput: JSON values of other types under `reference`, `degraded` or `mode` (a number, a list) are not modelled; the model's object holds strings there. A non-boolean `fallback` is modelled by its truthiness only.
