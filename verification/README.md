# Verified model of the HY2 server's hard core

A Dafny model of the state machines and buffer algorithms inside a Hysteria 2 / VLESS server
written in Rust, with proofs of what they promise. `dafny verify dfyconfig.toml` checks the whole
project.

| file | models |
|---|---|
| `Varint.dfy` | QUIC variable-length integers, section 16 of RFC 9000 |
| `UdpCodec.dfy` | the HY2 UDP datagram format and its two fragmenters |
| `Reassembly.dfy` | the bounded, expiring reassembly table, and delivery over whole runs |
| `ReassemblyLog.dfy` | what every call of the reassembler returns, from the log of its calls alone |
| `Salamander.dfy` | packet obfuscation, segmented sends and in-place batch receives |
| `Brutal.dfy` | the Brutal congestion controller: sampling ring, acknowledgement rate, window cache |
| `TunnelLink.dfy` | one NAT tunnel as two parties over a byte stream |
| `NatGateway.dfy` | the idle pool, the tunnel managers and the public connections together |
| `UdpSessions.dfy` | the UDP session table against queued expiry messages |
| `TcpCodec.dfy`, `TcpRelay.dfy` | HY2 TCP requests as slices and as chunked streams; the relay |
| `ShortStore.dfy`, `ShortStoreSpec.dfy` | the short-link store as an object, and what it promises over any log of operations |
| `Routing.dfy`, `DomainRules.dfy` | routing presets, custom rules, the three renderings, the custom-list parser |
| `Seqs.dfy` | chunks and concatenation shared by the above |

How the parts are modelled:

- **Objects** whose methods update fields are classes (`UdpReassembler`, `BrutalController`,
  `TunnelPool`, `RecvStream`, `Sink`, `Counter`, `ShortStore`); in-place buffer code works on arrays;
  loops are loops. Each such method is proved against a function on values, and the theorems are
  about those functions and about whole runs of them.
- **Concurrency** is a transition system: any interleaving of the atomic steps of the concurrent parties.
- **Independent statements**: what an operation does over runs is also stated without the operation, from the log of
  calls (`ResultFromLog`, `StoredExactlyWhen`, `GetRefinesMap`), byte positions (`SentBytes`, `DecodeForm`) or a
  least-value property (`WindowIsLeast`), with the constants of the source written as numbers.
- **Time** is a natural number. `Instant::duration_since` saturates at zero. Where a clock has to be
  monotonic this is a hypothesis (`Clocked`, `ClockOk`) or a recorded fact (`monotonic` of the Brutal
  controller).
- **Library functions** are parameters: `from_utf8_lossy`, `from_utf8`, the key derivation and the
  host parser are arbitrary functions; random bytes, connection results and file-write results are
  arguments. A `&str` is its UTF-8 bytes, so `lossy(destination) == destination` says that the
  destination is a string, and `lossy(lossy(b)) == lossy(b)` that the conversion yields one.
- **Hash-map order** is a choice: `Event.victim` names the packet `min_by_key` returns among equally
  old ones, and every theorem holds for every legal choice.
- **List membership** is an oracle per list name. A destination given by name has an address only
  after a DNS lookup, which a Clash or Surge address line asks for unless it says `no-resolve`, and
  which none of the rendered sing-box rules asks for.
- **Integers** are unbounded; the saturating and wrapping `u64` operations, the byte casts of
  fragment ids and the saturating float-to-integer cast are written out. `f64` is `real`.
  `bytes[start] |= prefix` is addition, because the two bits are clear.
- **Panics** are preconditions: `DecryptReceiveBatch` requires `Fits`, exactly the condition under
  which `copy_from_slice` finds a long enough target, and `EqualBuffersFit` shows that buffers of one
  size meet it.

Things the proofs bring out about the code:

- The saturating sums of the Brutal ring need no "no overflow" hypothesis: saturating early or late
  gives the same total.
- `put_persisted_expiring` can exceed its limit. `LimitCanBeExceeded` is a run of three calls;
  `ExpiringCountAfter` is the exact condition for one call and `LimitHoldsExactlyWhen` for a whole
  run: overwriting a link skips the eviction loop, so turning a permanent link into an expiring one
  next to a full set goes over.
- A persisted file that holds a code twice can make `get` answer with the hidden second link
  (`ShadowCanAnswer`). `GetRefinesMap` gives the exact condition: `get` answers from another record
  than a map if and only if the link written last has expired or been removed while a live repetition
  from the file is still stored, and then it answers from such a repetition. A link written last that
  is still held and live is found, and so is every permanent one.
- A clean end of both copy directions of a tunnel does not mean that nothing was lost
  (`CleanEndCanLose`). `FinishedMeansConserved` gives the exact condition: nothing is lost if and only
  if the far side never failed between taking bytes and writing them, which a shut down write half
  guarantees.
- The `Arc::ptr_eq` comparison in the session loop never fails: a queued expiry always names the session
  that is currently stored under its id.
- Neither end of a tunnel can ever close because of an unexpected byte: over every run an end is closed exactly
  when that party failed (`LinkEndsExactlyWhen`).
- A tunnel's one-place assignment mailbox is always empty when an assignment is sent.
- An empty datagram with a stride above eight is accepted by `decrypt_receive_batch` and delivered
  as an empty one, although the per-packet `decrypt` refuses an empty packet
  (`EmptyDatagramDelivered`). On all datagrams this is the only difference (`AgreesWithDecrypt`).
- The comprehensive preset rejects advertisements even when ad blocking was not asked for.

## Model

| member | source | states |
|---|---|---|
| Varint.EncodeVarint | src/protocol/varint.rs:11-24 | appends the RFC 9000 encoding, shortest width, below 2^62; fails above and appends nothing |
| Varint.DecodeVarint | src/protocol/varint.rs:26-38 | the byte loop computes the big-endian value without the tag, leaves the rest, stays below 2^62 |
| Varint.ParseEncoding | src/protocol/varint.rs:11-38 | decoding value-then-tail gives the value and exactly the tail, for every value below 2^62 |
| Varint.EncodingIsShortest | src/protocol/varint.rs:26-38 | anything the decoder accepts is at least as long as the canonical encoding, and is that encoding exactly when the lengths agree |
| Varint.EncodingHead | src/protocol/varint.rs:12-22 | the width tag changes only the first byte of the big-endian digits, whose two top bits are clear |
| Varint.ParseForm | src/protocol/varint.rs:26-38 | the decoder reads a value in every width that can hold it, not only the shortest, and leaves the tail |
| Varint.ParsedIsForm | src/protocol/varint.rs:26-38 | conversely, whatever the decoder accepts is such a form followed by the rest |
| UdpCodec.EncodedLayout | src/protocol/udp.rs:164-182 | byte positions of an encoded message and its exact length |
| UdpCodec.DecodedLayout | src/protocol/udp.rs:40-69 | for every accepted datagram: the fields are at the encoder's positions, the raw destination and the payload are within the limits, the destination is the converted raw one |
| UdpCodec.DecodeEncode | src/protocol/udp.rs:40-80 | encoding succeeds exactly on valid messages and decoding gives the message back |
| UdpCodec.EncodeDecode | src/protocol/udp.rs:40-80 | for every accepted datagram: re-encoding succeeds exactly when the converted destination is within the limit, decodes to the same message, and reproduces the datagram exactly when the destination was a string and its length field shortest; a string destination never grows |
| UdpCodec.EncodeFragmentsIsFragmentThenEncode | src/protocol/udp.rs:82-151 | the direct encoder equals fragment-then-encode, errors included, for every valid whole message and limit |
| UdpCodec.EncodeFragmentsCorrect | src/protocol/udp.rs:82-123 | succeeds exactly when valid, with room and within 255 fragments; then ids 0..count-1, each datagram within the limit and decoding to its piece, pieces joining to the payload |
| UdpCodec.PiecesShape | src/protocol/udp.rs:95-123 | the pieces join to the payload, there is at least one, and none exceeds the room of a datagram |
| UdpCodec.EncodeFragmentsErrors | src/protocol/udp.rs:82-123 | which of the four errors the direct encoder gives, each exactly when |
| UdpCodec.DecodeForm | src/protocol/udp.rs:40-69 | the decoder on eight header bytes, a length field in any form and any tail: the exact error or the exact message |
| UdpCodec.DecodeShort | src/protocol/udp.rs:41-50 | inputs below nine bytes are truncated; the length-field error comes exactly from inputs cut inside it |
| UdpCodec.DecodeShape | src/protocol/udp.rs:44-50 | every other input is header, length field in some form and tail, so the two rows above cover all inputs |
| Reassembly.UdpReassembler.PushAt | src/protocol/udp.rs:200-265 | the new table and the result are `Push` of the old table, for a legal eviction choice; `ReassemblyLog` says what that is over runs |
| Reassembly.UdpReassembler.constructor | src/protocol/udp.rs:184-187 | a new reassembler holds nothing |
| Reassembly.UdpReassembler.AddToPacket | src/protocol/udp.rs:226-265 | the entry, mismatch, fill and finish part computes `AddFragment` |
| Reassembly.AllPresent | src/protocol/udp.rs:239-241 | the scan for an empty slot |
| Reassembly.Join | src/protocol/udp.rs:246-256 | the loop concatenates the slots in index order |
| Reassembly.PushSize | src/protocol/udp.rs:214-225 | evicting before inserting keeps the table at 1024 packets or fewer |
| Reassembly.StoredAfter | src/protocol/udp.rs:226-241 | what is stored after a push is an unexpired old packet unchanged, or the addressed packet with one more slot filled |
| Reassembly.FindOldest | src/protocol/udp.rs:217-221 | the scan returns a least recently updated packet |
| Reassembly.PushKeepsInv | src/protocol/udp.rs:205-241 | one push keeps: at most 1024 packets, 2 to 255 slots, one filled, one empty, updated less than 10 s ago |
| Reassembly.ReachableInv | src/protocol/udp.rs:205-245 | the invariant holds in every reachable state |
| Reassembly.FatesAreExact | src/protocol/udp.rs:205-252 | what a push does to any stored packet: the six fates, with the exact new state and result of each |
| Reassembly.LossHasCause | src/protocol/udp.rs:205-245 | over a run, a packet that disappears timed out, mismatched, completed or was a least recently updated victim of a full table |
| Reassembly.StoredProvenance | src/protocol/udp.rs:205-241 | every stored packet was created at a definite push, has been live at every push since, and each slot holds the latest payload pushed for it since then, all agreeing on destination and count |
| Reassembly.CreationIsUnique | src/protocol/udp.rs:205-230 | that push is determined by the log: the last one that found no live packet of this key |
| Reassembly.ReturnedProvenance | src/protocol/udp.rs:205-264 | every multi-fragment message returned is the in-order concatenation of those latest payloads, none from before a timeout, eviction, mismatch or completion of the packet, at most 4096 bytes |
| Reassembly.OnlyStoredPacketsComplete | src/protocol/udp.rs:239-264 | a fragment returns a message only by completing an unexpired packet stored before it |
| Reassembly.AnyOrderDelivery | src/protocol/udp.rs:82-123 | decoded datagrams of one message, in any order, with repeats and other traffic: nothing until the last missing index, then exactly the original, provided no timeout or eviction |
| Reassembly.CalmIsUndisturbed | src/protocol/udp.rs:205-225 | a burst under 10 s with at most 1024 packets loses nothing to timeout or eviction |
| Reassembly.CalmDelivery | src/protocol/udp.rs:200-265 | in such a burst the push of the last missing index returns the original message |
| ReassemblyLog.ResultFromLog | src/protocol/udp.rs:200-265 | the result of every call of every run from the log alone: the message itself when it is whole, an error for a bad index, a disagreeing fragment or an oversized total, nothing while an index is missing, else the latest payloads since the packet was created joined in order; 10 s, 1024 packets, 4096 bytes |
| ReassemblyLog.TableFromLog | src/protocol/udp.rs:205-245 | after any calls the table holds exactly the packets the log describes, with the time last touched and the latest payloads |
| ReassemblyLog.ErrorsExactlyWhen | src/protocol/udp.rs:210-252 | there are two errors, and for each the exact condition on the log |
| ReassemblyLog.LegalFromLog | src/protocol/udp.rs:214-225 | when a packet is evicted and which: one touched least recently among the 1024 or more not timed out |
| ReassemblyLog.OneDatagramDelivery | src/protocol/udp.rs:82-209 | a message that fits one datagram is returned by the very call that pushes it, in any run from any table |
| Salamander.DecryptEncrypt | src/salamander.rs:15-31 | decryption undoes encryption; an empty payload is refused |
| Salamander.MaskedTwice | src/salamander.rs:33-38 | applying the keystream twice restores the bytes |
| Salamander.ApplyKeystream | src/salamander.rs:33-38 | the slice is XORed with the repeated key in place and nothing else changes |
| SalamanderSocket.EncryptTransmit | src/salamander_socket.rs:30-56 | fails exactly for an empty transmit; otherwise segment k is at k·(size + 8): its own eight salt bytes, then each byte XORed with the key derived from that salt; nothing else is sent; the segment size grows by 8 |
| SalamanderSocket.SentBytes | src/salamander_socket.rs:38-51 | that byte-by-byte layout, for every transmit and all salts |
| SalamanderSocket.SegmentIsAt | src/salamander_socket.rs:42-51 | the position, salt and masked bytes of one segment, the short last one included |
| SalamanderSocket.DecryptInPlace | src/salamander_socket.rs:81-91 | overlapping in-place compaction leaves the concatenated per-segment plaintexts at the front |
| SalamanderSocket.SegmentsAreLonger | src/salamander_socket.rs:75-80 | the scan accepts exactly when every segment, the short last one included, is longer than a salt |
| SalamanderSocket.DecryptSegment | src/salamander_socket.rs:82-91 | one segment is unmasked and moved to the end of the plaintext without touching the segments not yet read |
| SalamanderSocket.CopyWithin | src/salamander_socket.rs:89 | an overlapping move to the left |
| SalamanderSocket.TryDecrypt | src/salamander_socket.rs:67-91 | a rejected datagram leaves its buffer unchanged; an accepted one leaves its delivery at the front |
| SalamanderSocket.MoveDown | src/salamander_socket.rs:95-99 | moving a plaintext to its target slot disturbs no earlier delivery and no later input |
| SalamanderSocket.ReceiveOne | src/salamander_socket.rs:66-101 | one turn appends one delivery or none and leaves later inputs alone |
| SalamanderSocket.DecryptReceiveBatch | src/salamander_socket.rs:58-104 | the first `target` buffers and metadata are exactly the deliveries of the accepted datagrams in arrival order, although the work overwrites the input |
| SalamanderSocket.CutByNewStride | src/salamander_socket.rs:92-94 | cutting a delivery by its new stride gives the per-segment plaintexts, short last one included |
| SalamanderSocket.AgreesWithDecrypt | src/salamander_socket.rs:65-94 | for every datagram: delivery and the per-packet `decrypt` of each segment agree if and only if it is not empty with a stride above eight; the plaintexts are the same; a length beyond the buffer is skipped |
| SalamanderSocket.EmptyDatagramDelivered | src/salamander_socket.rs:72-94 | that datagram is delivered as an empty one while `decrypt` refuses it |
| SalamanderSocket.EqualBuffersFit | src/salamander_socket.rs:95-99 | buffers that do not grow along the batch leave room for every copy |
| SalamanderSocket.TransmitRoundTrip | src/salamander_socket.rs:30-104 | receiving a non-empty transmit that was sent restores its contents and segment size, for all key functions and salts |
| Brutal.StoreSample | src/brutal.rs:226-236 | the in-place slot update: reset on a new second, then saturating add |
| Brutal.Totals | src/brutal.rs:238-248 | the filtered saturating fold over the slots |
| Brutal.SlotContributes | src/brutal.rs:227-242 | a slot contributes the saturated sum of the samples of its one second still in the window, and nothing when stale |
| Brutal.SlotsPartition | src/brutal.rs:227 | the five slots partition the five most recent seconds |
| Brutal.TotalIsSaturatedSum | src/brutal.rs:243-248 | saturating additions of saturated slots equal one saturation of the exact sum |
| Brutal.RingEqualsHistory | src/brutal.rs:208-249 | the ring's totals are the saturated sums over all samples of the current and four preceding seconds of the whole history |
| Brutal.RateEqualsHistory | src/brutal.rs:225-254 | the acknowledgement rate is the one of those sums |
| Brutal.AckRateMeaning | src/brutal.rs:249-254 | 1 below the sample threshold, else the acknowledged share of the saturated total, at least 0.8 |
| Brutal.RateAfterIsSane | src/brutal.rs:249-254 | the rate stays in [0.8, 1] after any history |
| Brutal.RecordingKeepsClocked | src/brutal.rs:225-226 | with a non-decreasing clock the recorded seconds never decrease and never hit the sentinel |
| Brutal.WindowBounds | src/brutal.rs:263-269 | the window lies between max(0.8 rate·rtt, 10240, 2·mtu) and max(rate·rtt, 10240, 2·mtu), with the products truncated to `u64` |
| Brutal.LossNeverShrinksWindow | src/brutal.rs:263-269 | a lower acknowledgement rate never gives a smaller window |
| Brutal.PacingRateBounds | src/brutal.rs:270-273 | the pacing rate lies between 8 and 10 times the byte rate, truncated to `u64` |
| Brutal.WindowIsLeast | src/brutal.rs:263-269 | the window is the least one that is at least 10240, at least two packets and covers 0.8·rate·rtt once multiplied by the acknowledgement rate (up to truncation and the `u64` bound); stated without division |
| Brutal.PacingIsLeast | src/brutal.rs:270-273 | the pacing rate is the least one that covers eight bits a byte in the same way |
| Brutal.ShareMeans | src/brutal.rs:249-254 | covering at the acknowledgement rate means covering in whole bytes: acknowledged against acknowledged plus lost, with the sample threshold and the floor of four fifths |
| Brutal.WindowOfBytes | src/brutal.rs:249-273 | window and pacing rate are the least ones for the acknowledged and lost byte counts themselves |
| Brutal.SumIsSince | src/brutal.rs:225-242 | the sums over five whole seconds are the sums over the samples recorded since the instant four whole seconds before the current one |
| Brutal.BrutalController.RateIsRecent | src/brutal.rs:225-254 | as long as the clock has not gone backwards the rate is that of the bytes recorded since that instant |
| Brutal.BrutalController.constructor | src/brutal.rs:201-219 | the new controller's cache is a fresh computation over an empty history |
| Brutal.Recorded | src/brutal.rs:225-254 | what one more sample does to history, ring and rate |
| Brutal.BrutalController.Record | src/brutal.rs:225-256 | appends one sample to the history the ring replays, leaves the cache fresh, and, as long as the clock has not gone backwards, sets the rate to that of all bytes recorded in the current and the four preceding seconds |
| Brutal.BrutalController.RecordSample | src/brutal.rs:226-254 | the same without the cache |
| Brutal.BrutalController.RefreshCache | src/brutal.rs:258-274 | afterwards the cache is the fresh computation for the current rate, which `WindowOfBytes` characterises |
| Brutal.BrutalController.OnAck | src/brutal.rs:283-293 | sets the round-trip time, records an acknowledgement, keeps the cache coherent; the rate is that of the five-second window of the history |
| Brutal.BrutalController.OnCongestionEvent | src/brutal.rs:295-303 | records a loss, keeps the cache coherent; the rate is that of the five-second window of the history |
| Brutal.BrutalController.OnMtuUpdate | src/brutal.rs:305-308 | changes the MTU and keeps the cache coherent |
| Brutal.BrutalController.CurrentWindow | src/brutal.rs:276-312 | returns the window computed from scratch for the current shared rate: the least one for the bytes acknowledged and lost in the last five seconds |
| Brutal.BrutalController.Metrics | src/brutal.rs:314-320 | window and pacing rate computed from scratch for the current shared rate, each the least one for the recent bytes |
| Brutal.BrutalController.Clone | src/brutal.rs:335-349 | a clone has its own ring and cache, equal to the original's, and shares the rate |
| Brutal.RateChangesUnderneath | src/brutal.rs:221-223 | after the shared rate changes, controller and clone both answer with the fresh window |
| TunnelLink.StepKeepsAligned | src/nat_tunnel.rs:345-390 | every step of client and manager, every read and every write of the copy loops, every failure and every connection loss keeps the two ends aligned and all bytes accounted for |
| TunnelLink.RunKeepsAligned | src/nat_tunnel.rs:345-468 | so does every run |
| TunnelLink.OneRequestAtATime | src/nat_tunnel.rs:449-460 | at most one control request is outstanding, none while idle |
| TunnelLink.HandedIsAligned | src/nat_tunnel.rs:431-445 | after READY the local service is connected and only forwarded data is in flight; while both parties forward, what an endpoint sent is exactly what was delivered, buffered, in flight and buffered, in that order |
| TunnelLink.DeliveredIsPrefix | src/nat_tunnel.rs:381-388 | in any state each endpoint has received a prefix of what was written into the tunnel, which is a prefix of what the other sent |
| TunnelLink.CleanEndAccounts | src/nat_tunnel.rs:407-414 | in any state, at a clean end, what was received followed by what the far side had taken and not written when it failed is everything sent |
| TunnelLink.LostWhenFailsHolding | src/nat_tunnel.rs:381-388 | over any run something is lost at a party if and only if that party failed while it held bytes taken and not yet written |
| TunnelLink.FinishedMeansConserved | src/nat_tunnel.rs:407-414 | over any run that ends cleanly the endpoint got everything the other sent if and only if the far side never failed between taking bytes and writing them; it did when the far side shut down |
| TunnelLink.CleanEndCanLose | src/nat_tunnel.rs:381-388 | for any data, a run in which both directions end cleanly and the data is lost |
| TunnelLink.DiesByFailing | src/nat_tunnel.rs:418-468 | the gateway end closes by a step if and only if that step is its failure: every PONG and READY it reads is the expected one |
| TunnelLink.LeavesByFailing | src/nat_tunnel.rs:345-390 | the client leaves by a step if and only if that step is its failure: every command is one it knows |
| TunnelLink.LinkEndsExactlyWhen | src/nat_tunnel.rs:345-468 | over any run an end is closed if and only if that party failed; no protocol error ever happens |
| TunnelLink.IdleIsNew | src/nat_tunnel.rs:449-464 | an idle link with a waiting client is as good as new |
| TunnelLink.HeartbeatRestores | src/nat_tunnel.rs:449-464 | from such a link a heartbeat goes through, leaves it as it was, and any continuation stays possible |
| TunnelLink.CanFinish | src/nat_tunnel.rs:381-414 | from any state of the data phase both directions can still end with everything delivered |
| TunnelLink.CleanTransfer | src/nat_tunnel.rs:345-414 | for any data and any answer a run from a new link that delivers exactly them and ends cleanly |
| NatGateway.TunnelPool.Register | src/nat_tunnel.rs:179-205 | dead tunnels are dropped, the new one is queued last exactly when the live queue is below capacity |
| NatGateway.TunnelPool.constructor | src/nat_tunnel.rs:171-177 | a new pool is empty with the given capacity |
| NatGateway.TunnelPool.Retain | src/nat_tunnel.rs:191 | the queue keeps exactly its live tunnels, in order |
| NatGateway.KeepSound | src/nat_tunnel.rs:213 | retaining keeps membership, order without repeats, and never grows the queue |
| NatGateway.KeepInOrder | src/nat_tunnel.rs:213 | retaining keeps any order the queue is in |
| NatGateway.TunnelPool.TryAcquire | src/nat_tunnel.rs:212-217 | the longest-waiting live tunnel leaves the queue |
| NatGateway.RegisterMirrored | src/nat_tunnel.rs:189-196 | registering on the pool's handles is the Register step of the transition system |
| NatGateway.AcquireMirrored | src/nat_tunnel.rs:211-217 | acquiring on the pool's handles is the Acquire step |
| NatGateway.StepKeepsInv | src/nat_tunnel.rs:392-468 | every step of pool, managers, mailboxes, one-shot replies and public connections keeps the ownership invariant, including an assignment queued after the manager failed and a stream sent as the waiting side times out |
| NatGateway.StepKeepsLinks | src/nat_tunnel.rs:418-468 | every step of the whole gateway keeps every tunnel's two ends aligned |
| NatGateway.HolderStaysForever | src/nat_tunnel.rs:207-223 | once a connection has popped a tunnel it is the only one ever to hold it |
| NatGateway.RunInv | src/nat_tunnel.rs:246-310 | ownership and alignment hold in every state of every run |
| NatGateway.ExclusiveAssignment | src/nat_tunnel.rs:179-223 | in every run: queue within capacity without repeats; at most eight distinct tunnels per public connection; no tunnel taken by two connections, ever |
| NatGateway.NeverQueuedAgain | src/nat_tunnel.rs:207-223 | a taken tunnel is never queued again |
| NatGateway.ServedStreamIsAligned | src/nat_tunnel.rs:392-416 | in every run a served tunnel has one owner, its local service was connected, only data is in flight; deliveries are prefixes, and complete when the end was clean and the far side shut down |
| NatGateway.ConservedExactlyWhen | src/nat_tunnel.rs:381-414 | in every run of the whole gateway, at a clean end of a direction of any tunnel, the endpoint got everything the other sent if and only if the far side never failed between taking bytes and writing them |
| NatGateway.MailboxNeverFull | src/nat_tunnel.rs:184-188 | the one-place mailbox is empty when a connection sends its assignment |
| NatGateway.NoLostAssignment | src/nat_tunnel.rs:397-399 | in every run the assignment of a waiting connection is in exactly one place: unread, being worked on, or answered |
| NatGateway.ServingReached | src/nat_tunnel.rs:392-401 | for any capacity, tunnel, connection and number n there is a run from the empty gateway in which the tunnel sees n heartbeats and then serves the connection |
| NatGateway.CanServe | src/nat_tunnel.rs:392-468 | from any state of any run a seeking connection can be served by the longest-waiting live idle tunnel, after any number of further heartbeats |
| NatGateway.BeatStates | src/nat_tunnel.rs:449-464 | the three steps of a heartbeat and the gateway after each: at the end everything is as it was |
| NatGateway.TunnelDiesExactlyWhen | src/nat_tunnel.rs:418-468 | in every run the gateway end of a tunnel closes at a step if and only if it fails or its stream is dropped |
| NatGateway.QueueIsFifo | src/nat_tunnel.rs:189-217 | in every state of every run the queue is in the order of registration |
| NatGateway.AcquireTakesOldest | src/nat_tunnel.rs:207-223 | an acquisition takes the live queued tunnel registered first, and comes away empty only when none is live |
| NatGateway.RetriesBelowEight | src/nat_tunnel.rs:394-407 | a refused send, an error answer and a timeout make the connection try again if and only if it has taken fewer than eight tunnels; a stream makes it serve; waiting for a tunnel in vain fails it |
| NatGateway.FailedHasCause | src/nat_tunnel.rs:397-407 | over any run a connection gives up only after eight tunnels or after waiting for one in vain |
| NatGateway.NeverStuck | src/nat_tunnel.rs:392-468 | in every state of every run a waiting connection can be released without its own timeout, even if the tunnel fails |
| UdpSessions.StepKeepsInv | src/server.rs:575-591 | every step keeps: table, tasks and queue agree and sessions are conserved |
| UdpSessions.RunInv | src/server.rs:569-629 | the invariant holds in every state of every run |
| UdpSessions.ExpiryAlwaysMatches | src/server.rs:582-588 | the `Arc::ptr_eq` comparison on the oldest expiry always succeeds |
| UdpSessions.SessionsNeitherLeakNorMix | src/server.rs:636-694 | in every run each entry has its task alive or exactly one expiry queued; queued expiries name the stored session; opened = stored + removed, each removed once |
| UdpSessions.OnlyOwnExpiryRemoves | src/server.rs:581-591 | a session leaves the table only by its own expiry |
| UdpSessions.DatagramOpens | src/server.rs:631-694 | a datagram finds its id stored and changes nothing, or opens a session never seen before, with its task running and everything else untouched |
| UdpSessions.StoredExactlyWhen | src/server.rs:575-640 | over any run an id is stored if and only if a datagram for it came after its last handled expiry |
| UdpSessions.SessionsCounted | src/server.rs:575-640 | sessions opened are the datagrams that missed, sessions removed the expiries handled, and the table holds the difference; the loop is active until it is stopped |
| TcpCodec.DecodeEncodeRequest | src/protocol/tcp.rs:41-80 | decoding an encoded request gives destination and payload back, whatever the padding; encoding succeeds exactly within the length limits |
| TcpCodec.ReadPrefixed | src/protocol/tcp.rs:97-116 | a written length-prefixed field reads back exactly and leaves what follows |
| TcpCodec.ReadForm | src/protocol/tcp.rs:103-116 | a length-prefixed field with its length in any form: the exact error or the exact field and rest |
| TcpCodec.DecodeFrameType | src/protocol/tcp.rs:41-59 | any frame type but 0x401, in any form, is refused by its number; after 0x401 the fields decide |
| TcpCodec.DecodeRequestForm | src/protocol/tcp.rs:41-59 | a request with its lengths in any form: the exact error or the destination and payload, whatever the padding |
| TcpRelay.RecvStream.constructor | src/server.rs:699 | a stream is any list of non-empty chunks, possibly ending in a reset |
| TcpRelay.RecvStream.ReadUpTo | src/server.rs:863 | a read returns a prefix of what is pending, empty only at a clean end |
| TcpRelay.RecvStream.ReadExact | src/server.rs:764 | succeeds exactly when enough bytes are pending, and takes exactly those |
| TcpRelay.RecvStream.ReadVarint | src/server.rs:781-791 | byte-at-a-time reading consumes and returns what the slice decoder does, for any chunking |
| TcpRelay.ReadTcpRequest | src/server.rs:758-779 | the streamed header agrees with the slice parser; the next chunk is early payload |
| TcpRelay.ReadChunk | src/server.rs:771-774 | the next chunk, or nothing at a clean end; an error exactly at a reset |
| TcpRelay.ReadRequest | src/server.rs:703-707 | frame type and request: early payload plus what is pending is the payload of the whole stream |
| TcpRelay.StreamAgreesWithSlice | src/protocol/tcp.rs:41-59 | stream and slice parsing accept the same byte strings and find the same request |
| TcpRelay.WholeOfEncoded | src/protocol/tcp.rs:61-80 | the streamed parse of an encoded request yields its destination and payload |
| TcpRelay.CopyWithReusedBuffer | src/server.rs:851-871 | without cancellation succeeds exactly when nothing fails; then everything pending is written once, in order, counted and reported, whatever the chunks and the stale buffer; a failure or a cancellation leaves a prefix and counts no more than was written |
| TcpRelay.Sink.WriteAll | src/server.rs:867 | all the data when it fits, otherwise a prefix and failure |
| TcpRelay.Counter.Add | src/server.rs:869 | the wrapping counter represents the exact total |
| TcpRelay.CopyOnce | src/server.rs:862-870 | one turn moves a prefix of what is pending, through the front of the buffer only |
| TcpRelay.RelayBody | src/server.rs:729-755 | early payload and the rest arrive once, in order; never counts more than was written; a failing download half or shutdown makes the relay fail |
| TcpRelay.RelayTcpStream | src/server.rs:697-756 | relays to the end exactly when the stream is a well-formed request without reset, the destination it names connects, accepts everything and shuts down, the response is written and the download half does not fail; then exactly the payload was sent and counted; refused exactly when the destination of a well-formed request cannot be connected and the client is told; otherwise a prefix was sent |
| ShortStore.ShortStore.Put | src/sublink.rs:372-387 | prune, drop the old entry, evict from the back, push to the front; or the disabled error and no change |
| ShortStore.ShortStore.constructor | src/sublink.rs:344-365 | no entries, the persisted links that were loaded, the configured limits |
| ShortStore.ShortStore.PruneNow | src/sublink.rs:367-370 | exactly the unexpired entries stay, in order |
| ShortStore.ShortStore.PutPermanent | src/sublink.rs:389-402 | overwrites or appends a permanent link |
| ShortStore.ShortStore.RetainNow | src/sublink.rs:407-411 | exactly the permanent and unexpired links stay, in order |
| ShortStore.ShortStore.PutPersistedExpiring | src/sublink.rs:404-444 | terminates with the expired links gone, the soonest evicted for a new code, the link stored |
| ShortStore.ShortStore.Get | src/sublink.rs:467-484 | the first live persisted link, else the unexpired entry |
| ShortStore.FindSoonest | src/sublink.rs:424-432 | the first link with the minimal expiry, or none |
| ShortStoreSpec.ListIsLruWindow | src/sublink.rs:367-387 | over any log the bounded list answers like the first `limit` of the unbounded recency list; codes unique, expiries non-increasing, size within the limit |
| ShortStoreSpec.InsertKeepsWindow | src/sublink.rs:372-387 | a put keeps the list a window of the recency list: everything missing below the limit has expired |
| ShortStoreSpec.PruneKeepsWindow | src/sublink.rs:367-370 | so does pruning |
| ShortStoreSpec.RecencyOrdered | src/sublink.rs:381-385 | the recency list has unique codes and non-increasing expiries, bounded by the clock plus the time to live |
| ShortStoreSpec.UpsertSound | src/sublink.rs:391-400 | overwriting changes exactly the first link of one code |
| ShortStoreSpec.RetainSound | src/sublink.rs:407-411 | retaining keeps exactly the live links |
| ShortStoreSpec.EvictSound | src/sublink.rs:417-436 | eviction keeps permanent links, drops only links that expire no later than those kept, ends below the limit |
| ShortStoreSpec.InsertExpiringSound | src/sublink.rs:404-444 | no code is repeated that was not, the link is stored, permanent links under other codes survive, live links are lost only to later-expiring ones |
| ShortStoreSpec.ExpiringCountAfter | src/sublink.rs:413-442 | the count stays within the limit if and only if the code is new, the count is below the limit, or an expiring link is overwritten at the limit |
| ShortStoreSpec.LimitHoldsExactlyWhen | src/sublink.rs:404-444 | over a whole run the limit is respected throughout if and only if no call overwrites a live permanent link next to a full set |
| ShortStoreSpec.LimitHolds | src/sublink.rs:404-444 | a run that never turns a permanent link into an expiring one respects the limit |
| ShortStoreSpec.LimitCanBeExceeded | src/sublink.rs:413-416 | three calls on an empty store that exceed the limit, at any time before the first link has expired |
| ShortStoreSpec.TableIsLastWritten | src/sublink.rs:389-444 | over any log and any loaded file every persisted link is the last written for its code or a repetition the file held; permanent links are never lost; codes stay unique if they were |
| ShortStoreSpec.LastStaysFirst | src/sublink.rs:389-444 | over any log and any loaded file the link written last is the first of its code from its writing until it is removed as expired or evicted, a permanent one until it is overwritten; afterwards the table has only repetitions of the code that the file held |
| ShortStoreSpec.HeldWhenStored | src/sublink.rs:404-444 | being held is being stored, except for an expiring link equal to a repetition the file held |
| ShortStoreSpec.GetRefinesMap | src/sublink.rs:467-484 | over any log and any loaded file `get` answers from the record of a map (the link written last, else the live entry of the recency window) if and only if that link is held and live or no live repetition from the file is stored; otherwise it answers from such a repetition; a held live link and any permanent one is always found; without repetitions it is a map |
| ShortStoreSpec.StoredLastAnswers | src/sublink.rs:467-484 | a link written last that is stored and live is what `get` returns, whatever else the file held |
| ShortStoreSpec.ExpiringLinkLifetime | src/sublink.rs:404-484 | an expiring link not rewritten and still held is what `get` returns at every time below its writing plus the time to live (saturated at the largest `u64`), and never from then on |
| ShortStoreSpec.EntryLifetime | src/sublink.rs:367-387 | a listed entry not put again and among the `limit` most recent codes is found at every time below its stamp plus the time to live, and never from then on |
| ShortStoreSpec.RankOfPut | src/sublink.rs:372-387 | how recent: a code ranks no lower than the number of operations since it was put |
| ShortStoreSpec.ShadowCanAnswer | src/sublink.rs:469-477 | a file with a code twice on which the repetition answers |
| Routing.RenderSingBox | src/sublink.rs:1304-1352 | the loops build the grouped rules and rule-set declarations |
| Routing.DomainRuleFields | src/sublink.rs:1432-1442 | exact and suffix names of a list, in order |
| Routing.CustomRouteRule | src/sublink.rs:1444-1468 | no rule for an empty list, else one grouped rule |
| Routing.CustomRouteMatches | src/sublink.rs:1448-1455 | the grouped rule matches a destination exactly when some rule of the list does |
| Routing.RuleSetsOf | src/sublink.rs:1317-1338 | the inner loops build a rule's tags and its declarations, sites before addresses |
| Routing.RenderClash | src/sublink.rs:1672-1718 | the loops build the provider declarations and the rule lines |
| Routing.RenderLines | src/sublink.rs:1801-1822 | the loops build one line per domain and per list |
| Routing.WriteDomainLines | src/sublink.rs:1720-1726 | one line per custom domain, in order |
| Routing.WriteSpecLines | src/sublink.rs:1707-1715 | one line per list of a rule, by tag or by address, with `no-resolve` on the address lists |
| Routing.BlockOfLines | src/sublink.rs:1708-1714 | consecutive lines with one policy decide like one rule over their union |
| Routing.SingBoxDecides | src/sublink.rs:1304-1352 | first match over the grouped sing-box rules decides every destination as the rules mean |
| Routing.LinesDecide | src/sublink.rs:1700-1726 | so do the flat lines, by tag or by address, whatever a DNS lookup would give |
| Routing.RenderingPreservesMeaning | src/sublink.rs:1801-1822 | all three renderings give the same decision for every destination and every list membership |
| Routing.SelectedRuleSpecs | src/sublink.rs:994-1025 | the selection is the included rules of the preset's table, in table order |
| Routing.SelectFrom | src/sublink.rs:1001-1026 | the filtering loop over one table |
| Routing.KeptFromTable | src/sublink.rs:1003-1024 | the selection contains exactly the included rules of the table |
| Routing.PlainTagsAgree | src/sublink.rs:1328-1330 | site names that do not end like an address tag make every tag name one list |
| Routing.PresetsRenderAlike | src/sublink.rs:70-254 | for every preset the tags are unambiguous and the three renderings agree |
| Routing.RejectsAdsExactlyWhen | src/sublink.rs:994-1025 | a rejecting rule is selected exactly when asked for or with the comprehensive preset |
| Routing.PresetsDecide | src/sublink.rs:70-254 | what each preset decides for every destination, in terms of list memberships only, in all three renderings and behind the custom lists |
| Routing.SelectionDecides | src/sublink.rs:994-1025 | the selected rules decide like the whole table with the excluded rules passed over |
| Routing.PresetsGrow | src/sublink.rs:1003-1024 | minimal, balanced and comprehensive select ever more rules, comprehensive all of them |
| DomainRules.ParseDomainRules | src/sublink.rs:939-976 | the loop with its `seen` set returns the first error or the deduplicated rules, within both size limits |
| DomainRules.DedupSound | src/sublink.rs:970-972 | deduplication keeps exactly the rules there are, each once |
| DomainRules.DedupKeepsDecisions | src/sublink.rs:970-972 | deduplication changes no routing decision |
| DomainRules.ErrorSticks | src/sublink.rs:956-964 | the first bad piece decides the result, whatever follows it |
| DomainRules.SplitJoin | src/sublink.rs:978-982 | splitting joined lines gives the lines back |
| DomainRules.ParseRuleText | src/sublink.rs:943-969 | a rule written as `name` or `*.name` is read back as that rule |
| DomainRules.ParsePrinted | src/sublink.rs:939-982 | a list written one rule per line reads back as its rules without repeats, or is refused for its size |
| DomainRules.ParseAnySpelling | src/sublink.rs:939-976 | a list in any spelling, with any of the three separators, blanks around a piece, empty pieces, trailing dots, `*.name` or `.name`, is read as the rules it means without repeats, or refused with its first error or for its size |
| DomainRules.ParseWritten | src/sublink.rs:943-969 | one piece in any spelling is read as what it means, errors included |
| DomainRules.SplitJoinWith | src/sublink.rs:943 | splitting pieces joined by any of the three separators gives the pieces back |
| DomainRules.Utf8Adds | src/sublink.rs:940 | the size limit counts UTF-8 bytes: lengths add up |
| DomainRules.Utf8OfChar | src/sublink.rs:940 | a character takes one to four bytes, by its code point |

## Left out

- Sockets, TLS, QUIC, HTTP/3, DNS, file and TOML input and output: library behaviour, represented by inputs and outputs of the model.
- BLAKE2, SHA-256, MACs, random bytes and the authentication handshakes: arbitrary functions or arguments; no claim about secrecy.
- Liveness, in particular of `TunnelPool::acquire`: tokio's `Notify` is not modelled, so nothing is said about waiters waking up.
- `GatewayTracker`: the counters of connected nodes shown by the administration pages.
- `negotiated_rate`, the rate queue of the controller factory, BBR and the delegating `Hy2Controller`: a dispatch over an external library.
- IEEE rounding in the Brutal controller: `f64` is `real`.
- The bytes of the download half, the response frame and the relay buffer pool: the download is the same copy loop with source and destination exchanged; here it only succeeds or fails.
- TcpRelay.CopyWithReusedBuffer: a cancellation falls between two turns; one inside `write_all` leaves a prefix like a failing write.
- The DNS sections, node lists and literal text of the three configuration formats: rules are data here, and one membership oracle per list name stands for the different list files the three clients download.
- `prune` and the several clock readings inside one `get` are one reading of each clock.
- SalamanderSocket.DecryptReceiveBatch: requires `Fits`; a batch whose target buffer is too short for the copy panics and is not described further.
- DomainRules.ParseAnySpelling: a name that after its prefix is empty or starts with `.` or `*.` is outside the spellings; `ParseDomainRules` covers those texts too.
- ShortStoreSpec.ListIsLruWindow: assumes a positive limit, which the configuration guarantees.
- Overflow of `start + source_stride` for strides near the 64-bit limit: segment positions are unbounded.
- `src/admin.rs`, `src/config.rs`, `src/reverse_proxy.rs`, `src/startup.rs`, `src/masquerade.rs`, `src/tcp_server.rs`, `src/vless_server.rs`, `src/outbound.rs`, `web/` and the scripts: handlers, validation, process calls and user interface.
