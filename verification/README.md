# Verification of the voice receive pipeline

A Dafny 4.11 model of the receive side of the voice extension in `discord/ext/voice_recv`, with proofs.
`dafny verify dfyconfig.toml` checks all of it. Each object of the source that updates its fields is a Dafny class
whose methods keep the loops and branches of the original; every such method is proved equal to a function on values,
and the properties below are proved about those functions, over all inputs, all runs or all reachable states.

The project follows the way of a packet:

- **Wire format.** `Rtp` unwraps a packet in the `rtpsize` layout (sections 5.1 and 5.3.1 of RFC 3550). `Uleb128`
  reads numbers (section 7.6 of DWARF Version 5) and `DavePayload` the trailer of an end-to-end encrypted payload.
- **Deferred decryption.** `Dave` is the view of the end-to-end session; `Deferral` is `PacketDecryptor`, which parks
  packets that cannot be decrypted yet. `DrainFacts`, `BucketFacts` and `Placement` say what its operations do to one
  queue, to all queues, and to one packet.
- **Threads.** `Pipeline` is the state machine of the receive thread, the retry thread and the gateway. A callback takes
  the session lock twice, and packets are routed one by one after it is released, so each of these is a step of its own,
  and session changes, epoch preparations and time may come in between; the receive lock keeps other callbacks, retries
  and synchronisation out. The library's session is an arbitrary oracle that is asked anew in every step, for each
  packet. `Bounds`, `Rollover`, `Turns` and `PlaintextPolicy` are about all runs of this machine; `Progress`,
  `Arrivals` and `Tallies` say exactly what becomes of each packet that waits or arrives, and what is counted; and
  `Reading` proves that the reader object takes exactly these steps, so that its history is always such a run.
- **Unknown senders.** Packets are held back until their SSRC has a user. `UnknownQueue` has the operations under the
  queue's lock, `UnknownRuns` the state machine of the receive thread, which routes, and the gateway, which learns users
  and flushes; packets taken off the shelf and not yet fed are in the hands of the thread that took them.
  `UnknownFates` says what becomes of each packet, `UnknownSenders` is the code, with every interleaving of the two;
  `EndToEnd` joins it to `Pipeline`.
- **Playback order.** `Heapq`, `JitterBuffer`, `PacketDecoding`, `WakeUp` and `Routing` are the heap of CPython's
  `heapq`, the jitter buffer, the decoder, the wake-up list and the router loop; `DecoderRuns` says what a decoder
  accepts, hands out and decodes over whole runs, and `RouterHistory` what the sink gets. `RouterObjects` has the
  decoder and router objects with all their references.

## Findings

- While an encrypted session is ready and no downgrade is allowed, unmarked payloads can still be routed, in two ways:
  a packet accepted in the first half of a callback is let out in the second (`UnmarkedCanSlipThrough`), and a packet
  popped earlier is routed after the session lock was released (`UnmarkedCanComeLate`), if the session becomes strict in
  between. There is no other way (`StrictSteps`, `StrictRoutesOnlyEarlier`), and a packet that arrives in that state is
  never let out (`StrictArrivalsAreNeverRouted`).
- No packet is ever dropped as `unrecoverable` (`NothingIsUnrecoverable`): plaintext is rejected first, on the state
  that the decryption then uses, and every other failure is retried.
- Packets held for an unknown SSRC can be overtaken: by a packet that the receive thread feeds while the gateway's flush
  still has earlier ones in its hands, even if the user was known at both tests of `_route_rtp_packet`, and by one whose
  user becomes known between the tests while young ones are held. Nothing else overtakes, and the order of arrival is
  kept exactly if none that was overtaken is fed later (`OrderIsKeptExactly`); `OvertakingHappens` is a run.
- A packet with the marker set and a payload type from 72 to 76 is taken for a control packet (`Rtp.RoundTrip`).
- The loop over the elements of a header extension counts elements against the number of words. Elements beyond that
  number are lost, and where there are fewer, octets of the audio are taken for elements (`ElementsExactly`,
  `AudioIsTakenForAnElement`).
- The header that authenticates an `rtpsize` packet is put together without its contributing sources, so a packet sealed
  with its whole header is unwrapped exactly if it has none (`UnwrapsExactlyWithoutSources`).
- Two packets that arrive in the wrong order across a rollover of the numbers are played in the wrong order
  (`SwappedPairIsSortedExactly`).
- A payload in DAVE form that arrives under protocol version 0 is not lost: it waits until the session is there
  (`ArrivalExactly`).
- The trailer parser gives back what the tests' printer wrote exactly if there is a ciphertext and no number reaches
  2^70 (`RoundTripExactlyIfFits`).
- Sorting a queue by signed 16-bit distance gives sending order as long as the queue spans fewer than 32768 numbers;
  at exactly 32768 it does not (`HalfARoundIsTooFar`).
- The emptiness and prefill checks that the jitter buffer's `pop` makes after its flag never decide anything
  (`PopChecksAreRedundant`).

## Hypotheses

- The results on emission order, concealment and error correction assume what the packet comparison of the source needs
  (`PacketDecoding.Regular`): packets of one SSRC have distinct numbers in one interval without rollover, narrower than
  55535, and timestamps that increase with the numbers. Readiness, buffer size and the router loop need no hypothesis.
- The results on sending order (`Rollover`, `Turns`) assume that a packet arrives within half a round of the packets of
  its SSRC that are waiting (`NarrowRun`).
- Packets have identities; a packet is received once. Generations and time never go back.
- Only RTP packets are fed to the router; synthetic packets never enter a buffer.

## Model

| member | source | states |
|---|---|---|
| `Uleb128.ReadUleb128` | discord/ext/voice_recv/dave.py:198-211 | the loop returns the value of the token at `start` and the index just past it, or nothing if there is no token before `end` |
| `Uleb128.ReadIsToken` | discord/ext/voice_recv/dave.py:198-211 | what was read is one token: all octets but the last continue, at most ten |
| `Uleb128.ReadFails` | discord/ext/voice_recv/dave.py:198-211 | reading fails exactly if no prefix of the range is a token |
| `Uleb128.TokensArePrefixFree` | discord/ext/voice_recv/dave.py:198-211 | no token is a proper prefix of another |
| `Uleb128.EncodeIsToken` | tests/test_dave.py:10-28 | the canonical encoding is a token exactly for values below 2^70 |
| `Uleb128.ReadBack` | discord/ext/voice_recv/dave.py:198-211 | for every value below 2^70 and any surroundings, reading the canonical encoding gives the value and the index just past it |
| `DavePayload.ParseRanges` | discord/ext/voice_recv/dave.py:178-188 | the loop over offset and size pairs returns them all if they fill the range exactly, else nothing |
| `DavePayload.ParseDavePayload` | discord/ext/voice_recv/dave.py:156-196 | the parser with its early exits computes the specification `Parse` |
| `DavePayload.AcceptsExactlyWellFormed` | discord/ext/voice_recv/dave.py:156-196 | accepted exactly: marker at the end, size octet above 10 and below the length, and an odd number of tokens between tag and size octet |
| `DavePayload.WellFormedIsAccepted` | discord/ext/voice_recv/dave.py:156-196 | the result holds the values of those tokens and the place where the ciphertext ends |
| `DavePayload.SplitIsUnique` | discord/ext/voice_recv/dave.py:170-188 | octets split into tokens in at most one way |
| `DavePayload.ParsePrint` | tests/test_dave.py:10-28 | parsing a printed payload returns nonce, ranges and ciphertext |
| `DavePayload.RoundTripExactlyIfFits` | tests/test_dave.py:10-28 | the round trip succeeds if and only if the ciphertext is not empty and every number is below 2^70 |
| `Rtp.Receive` | discord/ext/voice_recv/reader.py:1169-1183 | the packet object, unwrapped step by step, is what `Unwrap` says; control packets take the other branch |
| `Rtp.RTPPacket.constructor` | discord/ext/voice_recv/rtp.py:168-201 | all fields of the fixed header, the CSRCs and the rest of the packet |
| `Rtp.RTPPacket.AdjustRtpsize` | discord/ext/voice_recv/rtp.py:203-216 | nonce, header and ciphertext after the adjustment, with and without extension |
| `Rtp.RTPPacket.UpdateExtHeaders` | discord/ext/voice_recv/rtp.py:218-251 | the extension, the elements and the offset of the audio |
| `Rtp.RTPPacket.ParseBedeHeader` | discord/ext/voice_recv/rtp.py:265-291 | the element loop ends and stays inside the octets, for any input |
| `Rtp.RTPPacket.StripPadding` | discord/ext/voice_recv/rtp.py:253-262 | the audio without padding; malformed padding is left alone |
| `Rtp.HeaderReadsBack` | discord/ext/voice_recv/rtp.py:56-77 | whatever follows it, the fixed header reads back as sent, unless it is taken for a control packet |
| `Rtp.HeaderExactly` | discord/ext/voice_recv/rtp.py:46-75 | exactly these octets make an audio packet: version 2, second octet not 200 to 204, 12 octets and all announced sources |
| `Rtp.SourcesReadBack` | discord/ext/voice_recv/rtp.py:197-201 | each source is the four octets at its place, and the rest of the packet follows the sources |
| `Rtp.UnwrapsExactlyWithoutSources` | discord/ext/voice_recv/rtp.py:187-216 | if the box opens only what was sealed with the whole header, a packet is unwrapped if and only if it has no sources |
| `Rtp.StrippedExactly` | discord/ext/voice_recv/rtp.py:253-262 | padding goes exactly if the packet is marked as padded and the last octet counts octets that are there |
| `Rtp.ElementsExactly` | discord/ext/voice_recv/rtp.py:265-291 | of printed elements as many are read back as the extension has words; with fewer elements than words the loop reads on in what follows the extension |
| `Rtp.AudioIsTakenForAnElement` | discord/ext/voice_recv/rtp.py:265-291 | an extension of one element and two words, after which two octets of the audio are taken for a second element |
| `Rtp.ElementsRoundTrip` | discord/ext/voice_recv/rtp.py:218-291 | a sender that puts as many elements as words in an extension gets them all across |
| `Rtp.RoundTrip` | discord/ext/voice_recv/reader.py:1169-1183 | for any audio, numbers, extension of whole words, padding of 1 to 255 octets or none, and any sealing box: unwrapping the wire packet returns exactly the audio, the numbers and the words of the extension, if and only if it is not taken for a control packet |
| `WakeUp.MultiDataEvent.Register` | discord/ext/voice_recv/utils.py:160-206 | one registration more, and the event is set exactly while there are any |
| `WakeUp.MultiDataEvent.Unregister` | discord/ext/voice_recv/utils.py:160-206 | the first registration of the item is gone, if there was one |
| `WakeUp.RemoveFirstCounts` | discord/ext/voice_recv/utils.py:160-206 | unregistering takes back exactly one of possibly many registrations |
| `Heapq.HeapPush` | discord/ext/voice_recv/buffer.py:141-163 | the sift loop of `heapq.heappush` computes `Push` |
| `Heapq.HeapPop` | discord/ext/voice_recv/buffer.py:165-185 | the sift loops of `heapq.heappop` hand out the root and compute `Pop` |
| `Heapq.PushKeeps` | discord/ext/voice_recv/buffer.py:141-163 | pushing keeps all packets and adds one, whatever the comparison says |
| `Heapq.PopKeeps` | discord/ext/voice_recv/buffer.py:165-185 | popping takes out exactly the root |
| `Heapq.PushOrders` | discord/ext/voice_recv/buffer.py:141-163 | pushing keeps the heap order if packets can be compared |
| `Heapq.PopOrders` | discord/ext/voice_recv/buffer.py:165-185 | popping keeps the heap order if packets can be compared |
| `Heapq.RootIsLeast` | discord/ext/voice_recv/rtp.py:89-92 | no packet of a heap comes before its root |
| `JitterBuffer.HeapJitterBuffer.Push` | discord/ext/voice_recv/buffer.py:141-163 | buffer, cursor, prefill and flag after a push, and whether the packet was accepted |
| `JitterBuffer.HeapJitterBuffer.Pop` | discord/ext/voice_recv/buffer.py:165-185 | what a pop hands out and leaves behind |
| `JitterBuffer.HeapJitterBuffer.Cleanup` | discord/ext/voice_recv/buffer.py:131-139 | the popping loop that shrinks the buffer to its maximum |
| `JitterBuffer.HeapJitterBuffer.Advance` | discord/ext/voice_recv/buffer.py:225-235 | the cursor moves on modulo 65536 and the flag follows |
| `JitterBuffer.HeapJitterBuffer.ResyncToNext` | discord/ext/voice_recv/buffer.py:237-247 | the cursor moves to just before the head and the flag follows |
| `JitterBuffer.HeapJitterBuffer.Flush` | discord/ext/voice_recv/buffer.py:249-263 | everything is handed out, sorted; cursor at the last of it |
| `JitterBuffer.HeapJitterBuffer.Reset` | discord/ext/voice_recv/buffer.py:265-273 | the buffer is as new |
| `JitterBuffer.HeapJitterBuffer.UpdateHasItem` | discord/ext/voice_recv/buffer.py:111-129 | the flag as the specification says, nothing else changes |
| `JitterBuffer.HeapJitterBuffer.CurrentGap` | discord/ext/voice_recv/buffer.py:214-223 | counting on from the cursor by the gap and one more arrives at the head; it is zero exactly if nothing is held, the cursor is unset or the head is next |
| `JitterBuffer.AlwaysSound` | discord/ext/voice_recv/buffer.py:111-129 | after any operations: the flag is set if and only if prefill is spent, the length exceeds prefsize, and the cursor is unset or the head is next or the buffer is full; and the length never exceeds maxsize |
| `JitterBuffer.PopChecksAreRedundant` | discord/ext/voice_recv/buffer.py:165-185 | in every reachable state a pop hands out a packet exactly if the flag is set |
| `JitterBuffer.PushIsBoundedInsert` | discord/ext/voice_recv/buffer.py:131-163 | as a sorted list: a push inserts in order and drops the least packet if the buffer was full |
| `JitterBuffer.PopHolds` | discord/ext/voice_recv/buffer.py:165-185 | as a sorted list: a pop takes the head |
| `JitterBuffer.SortSorts` | discord/ext/voice_recv/buffer.py:249-263 | a flush hands packets out in order |
| `JitterBuffer.FlushExactly` | discord/ext/voice_recv/buffer.py:249-263 | a flush hands out all packets in order and leaves the cursor at the greatest of them |
| `JitterBuffer.SwappedPairIsSortedExactly` | discord/ext/voice_recv/rtp.py:89-92 | of two packets that arrive in the wrong order the one sent first is handed out first if and only if the numbers did not roll over between them |
| `PacketDecoding.RunKeepsInv` | discord/ext/voice_recv/opus.py:162-232 | over every run of pushes and pops: the heap holds a sorted list ahead of the cursor, the last number emitted is the cursor unless a resync is outstanding, and the concealed packets fit their bound |
| `PacketDecoding.EmissionsIncrease` | discord/ext/voice_recv/opus.py:189-232 | numbers emitted, genuine and synthetic, strictly increase |
| `PacketDecoding.EmissionsAreConsecutive` | discord/ext/voice_recv/opus.py:189-232 | each is its predecessor plus one, unless there was a resync in between or a full buffer forced the pop |
| `PacketDecoding.ConcealmentIsBounded` | discord/ext/voice_recv/opus.py:189-205 | never more than `max_conceal_frames` synthetic packets in a row, for any interleaving |
| `PacketDecoding.FecIsAligned` | discord/ext/voice_recv/opus.py:303-323 | error correction data for a synthetic packet `s` comes from the held packet numbered `s + 1`; plain concealment exactly if none is held |
| `DecoderRuns.AcceptedExactly` | discord/ext/voice_recv/buffer.py:141-163 | over every run: a push is accepted if and only if no number was passed yet or the packet is 1 to 10001 ahead of the cursor |
| `DecoderRuns.AcceptedIfAhead` | discord/ext/voice_recv/buffer.py:141-163 | so where numbers span at most 10000, exactly what lies above the cursor is accepted |
| `DecoderRuns.AcceptedIsAccountedFor` | discord/ext/voice_recv/buffer.py:131-185 | over every run: an accepted packet is still held, or was handed out since, or was pushed out of a full buffer of 10 as the least of all |
| `DecoderRuns.PopExactly` | discord/ext/voice_recv/opus.py:189-210 | over every run: a pop hands out the least packet exactly if at least two are held and it is next, or the first of all, or the buffer is full; else it conceals one number, or jumps if more than `max_conceal_frames` are missing, or does nothing |
| `DecoderRuns.FakeFollows` | discord/ext/voice_recv/opus.py:212-215 | over every run: a synthetic packet follows the one emitted last by one number and 960 samples, modulo 2^16 and 2^32 |
| `DecoderRuns.DecodesExactly` | discord/ext/voice_recv/opus.py:234-285 | over every run: a genuine packet has its own audio decoded if and only if its inner flag is clear and its payload is not a well-formed DAVE payload; which of the two skips it is otherwise |
| `DecoderRuns.ConcealsExactly` | discord/ext/voice_recv/opus.py:301-366 | over every run: a synthetic packet is decoded from the packet numbered one above if and only if that is held and meets the same two conditions, skipped if it is held and fails one, concealed if it is not held |
| `RouterObjects.PacketDecoder.PushPacket` | discord/ext/voice_recv/opus.py:162-164 | the object does what `PushPacket` says, and registers itself if a packet can be handed out |
| `RouterObjects.PacketDecoder.PopData` | discord/ext/voice_recv/opus.py:166-173 | the object does what `PopData` says, including gap, resync and synthetic packets, and registers or unregisters itself |
| `RouterObjects.PacketDecoder.GetNextPacket` | discord/ext/voice_recv/opus.py:189-210 | the packet popped, concealed or skipped, and the buffer afterwards |
| `RouterObjects.PacketDecoder.DecodePacket` | discord/ext/voice_recv/opus.py:234-366 | skip, decode, error correction or concealment, by the packet and the one that may be next |
| `RouterObjects.PacketDecoder.FlagReadyState` | discord/ext/voice_recv/opus.py:156-160 | one registration more or one less |
| `RouterObjects.PacketDecoder.Destroy` | discord/ext/voice_recv/opus.py:184-187 | the buffer is reset, the numbers emitted last stay, one registration goes |
| `RouterObjects.PacketRouter.FeedRtp` | discord/ext/voice_recv/router.py:41-51 | the packet goes to the decoder of its SSRC, made if missing, unless the SSRC was dropped; no other decoder changes |
| `RouterObjects.PacketRouter.GetDecoder` | discord/ext/voice_recv/router.py:58-64 | the decoder of an SSRC, made if missing |
| `RouterObjects.PacketRouter.DestroyDecoder` | discord/ext/voice_recv/router.py:80-85 | the decoder is reset and forgotten, and its SSRC remembered among the last ones dropped |
| `RouterObjects.PacketRouter.SetUserId` | discord/ext/voice_recv/router.py:70-78 | a dropped SSRC is admitted again |
| `RouterObjects.PacketRouter.Visit` | discord/ext/voice_recv/router.py:110-113 | one `pop_data` and the write it causes; no other decoder changes |
| `RouterObjects.PacketRouter.RunOnce` | discord/ext/voice_recv/router.py:106-113 | one turn over a copy of the waiter list, while the list changes |
| `RouterObjects.PacketRouter.RunUntilIdle` | discord/ext/voice_recv/router.py:106-113 | with no new packets the loop ends, with an empty waiter list |
| `RouterObjects.PacketRouter.SinkGot` | discord/ext/voice_recv/router.py:106-113 | at any time the sink has got of each SSRC exactly what its decoders emitted |
| `RouterHistory.SinkGetsExactlyWhatIsEmitted` | discord/ext/voice_recv/router.py:106-113 | over every history of the router: what the sink got of an SSRC is, in order, what the decoders of that SSRC emitted on the calls they got, from one destruction to the next |
| `RouterHistory.DestroyedStaysDropped` | discord/ext/voice_recv/router.py:80-85 | over every history: a destroyed SSRC stays dropped while fewer than 16 others are destroyed and its user is not set |
| `RouterHistory.DroppedWasDestroyed` | discord/ext/voice_recv/router.py:70-85 | over every history: what is dropped was destroyed, and its user has not been set since |
| `Routing.PopProgress` | discord/ext/voice_recv/opus.py:166-210 | each `pop_data` hands out a packet, or shrinks a gap, or finds nothing to release |
| `Routing.SnapshotStaysCovered` | discord/ext/voice_recv/utils.py:192-201 | no registration in the copy outruns those left in the list |
| `Routing.VisitDecreases` | discord/ext/voice_recv/router.py:106-113 | visiting a registered decoder shrinks (packets buffered, gaps, registrations) lexicographically |
| `Routing.TurnShrinks` | discord/ext/voice_recv/router.py:106-113 | a whole turn keeps the invariant and shrinks the measure |
| `Routing.Settled` | discord/ext/voice_recv/router.py:106-113 | turns until nothing is registered; defined for every router in the invariant, which is termination |
| `Routing.LoopAlwaysSettles` | discord/ext/voice_recv/router.py:106-113 | from every reachable router: whoever has a packet to hand out is registered, the loop settles, and then no decoder has more than prefsize packets |
| `Routing.OneSsrcPerHeap` | discord/ext/voice_recv/rtp.py:89-92 | a heap only holds packets of one SSRC, so comparing them never raises |
| `Dave.DaveBridge.Refresh` | discord/ext/voice_recv/dave.py:53-75 | the whole refreshed state of the bridge |
| `Dave.RefreshIsTrue` | discord/ext/voice_recv/dave.py:53-75 | version, generation, readiness, downgrade, epoch, status and transitions are those of the connection |
| `Dave.ChangeIsNoticed` | discord/ext/voice_recv/dave.py:60-62 | the time of the last change moves exactly when session, epoch or generation differ |
| `Dave.StrictExactly` | discord/ext/voice_recv/reader.py:1077-1079 | a session is strict exactly if its version is above 0, it is ready, and no downgrade is done or pending |
| `Dave.DaveBridge.EpochPrepared` | discord/ext/voice_recv/dave.py:77-81 | a preparation of epoch 1 is remembered after a refresh, any other ignored |
| `Dave.DaveBridge.DecryptAudio` | discord/ext/voice_recv/dave.py:87-101 | the outcome for every state, payload and answer of the library |
| `Deferral.PacketDecryptor.BridgeState` | discord/ext/voice_recv/reader.py:1055-1075 | the two loops drop everything pending exactly if the generation changed |
| `Deferral.PacketDecryptor.DeferPendingInnerPacket` | discord/ext/voice_recv/reader.py:1028-1053 | the entry is sorted in, and the first dropped on overflow |
| `Deferral.PacketDecryptor.DrainPendingInnerPackets` | discord/ext/voice_recv/reader.py:1081-1118 | the loop over a changing dictionary drains every queue once |
| `Deferral.PacketDecryptor.DrainEntry` | discord/ext/voice_recv/reader.py:1086-1115 | one entry gets its verdict: expired, plaintext, kept, retried, recovered or given up, with all its effects |
| `Deferral.PacketDecryptor.DrainQueue` | discord/ext/voice_recv/reader.py:1084-1118 | one queue is settled entry by entry, blocked behind a retry |
| `Deferral.PacketDecryptor.TryDaveInnerDecrypt` | discord/ext/voice_recv/reader.py:1131-1167 | one attempt: its outcome, marks and library call |
| `Deferral.PacketDecryptor.PopRecoveredRtpPackets` | discord/ext/voice_recv/reader.py:1120-1125 | what was recovered is handed out and cleared |
| `Deferral.PacketDecryptor.DecryptRtp` | discord/ext/voice_recv/reader.py:1241-1285 | a fresh packet is decrypted, deferred, dropped or passed through |
| `DrainFacts.NothingOvertakes` | discord/ext/voice_recv/reader.py:1084-1118 | once an entry stays, nothing behind it is released or tried, and at most one entry needs a retry |
| `DrainFacts.KeptAreYoung` | discord/ext/voice_recv/reader.py:1089-1097 | whatever stays in a queue, blocked or not, is young and acceptable |
| `DrainFacts.QueueFate` | discord/ext/voice_recv/reader.py:1084-1118 | each queued packet stays untouched, is handed on, or is flagged dropped: exactly one; no other packet is touched |
| `BucketFacts.SsrcsAreIndependent` | discord/ext/voice_recv/reader.py:1084-1118 | what a drain leaves of one SSRC's queue depends on that queue alone |
| `BucketFacts.EnqueuedAdds` | discord/ext/voice_recv/reader.py:1037-1042 | sorting in adds exactly the new entry |
| `BucketFacts.FreedAllOnce` | discord/ext/voice_recv/reader.py:1081-1125 | a drain hands on a packet at most once |
| `Placement.PoppedData` | discord/ext/voice_recv/reader.py:1101-1107 | the data of a recovered packet is what the library returned for it |
| `Pipeline.RunConserves` | discord/ext/voice_recv/reader.py:1047-1118 | over every run: queued equals recovered plus the five kinds of drops plus what is pending |
| `Pipeline.ExactlyOnce` | discord/ext/voice_recv/reader.py:853-932 | over every run: a packet is routed at most once and is at any time exactly one of routed, dropped, queued (if and only if its flag says so) or in hand |
| `Pipeline.GroupIsolation` | discord/ext/voice_recv/reader.py:1055-1125 | over every interleaving: ciphertext is only offered to the session of the generation observed when it arrived, and everything queued is of the generation last observed |
| `Pipeline.RunIsJustified` | discord/ext/voice_recv/reader.py:1241-1285 | everything routed carries the library's plaintext, or arrived unmarked under protocol version 0 |
| `Pipeline.RunIsOrderly` | discord/ext/voice_recv/reader.py:1028-1129 | over every run the dictionaries stay well formed, nothing recovered is left behind between steps, and each packet has one place |
| `Pipeline.ReleasedByPop` | discord/ext/voice_recv/reader.py:880-884 | what a pop lets out, in which order: the recovered packets, then the packet in hand if it is neither dropped, deferred nor recovered |
| `PlaintextPolicy.StrictSteps` | discord/ext/voice_recv/reader.py:1077-1118 | in a strict session a step lets an unmarked packet out of the decryptor if and only if it is the second half of the callback that had accepted it |
| `PlaintextPolicy.RoutedWhenNext` | discord/ext/voice_recv/reader.py:917-930 | a packet is routed exactly when it is next among those let out |
| `PlaintextPolicy.StrictStretch` | discord/ext/voice_recv/reader.py:1077-1118 | over every run, while a session stays strict no unmarked packet is let out but one that was in hand |
| `PlaintextPolicy.StrictRoutesOnlyEarlier` | discord/ext/voice_recv/reader.py:839-842 | an unmarked packet routed in that time was in hand, or popped, when the session became strict |
| `PlaintextPolicy.StrictArrivalsAreNeverRouted` | discord/ext/voice_recv/reader.py:1254-1260 | over every run an unmarked packet that arrives in a strict session is dropped for good |
| `PlaintextPolicy.UnmarkedCanSlipThrough` | discord/ext/voice_recv/reader.py:849-932 | a run in which a packet accepted before is let out after |
| `PlaintextPolicy.UnmarkedCanComeLate` | discord/ext/voice_recv/reader.py:1120-1125 | a run in which a packet popped before is routed after |
| `Bounds.QueuesAreBounded` | discord/ext/voice_recv/reader.py:1036-1053 | over every run each stored queue has 1 to 1024 entries of its SSRC, one queue for each |
| `Bounds.DrainLeavesYoung` | discord/ext/voice_recv/reader.py:1081-1118 | after a drain every entry left is younger than its maximum age |
| `Bounds.AgesAreDue` | discord/ext/voice_recv/reader.py:1036-1040 | over every run an entry's maximum age is 15 exactly if the latest epoch-1 preparation of its generation was under 5 seconds old when it arrived, else 10 |
| `Bounds.RefreshRemembers` | discord/ext/voice_recv/dave.py:53-81 | the bridge remembers the latest preparation of the connection's generation |
| `Bounds.NothingIsUnrecoverable` | discord/ext/voice_recv/reader.py:1108-1115 | over every run no queued packet is counted as unrecoverable |
| `Rollover.EnqueuedInSendOrder` | discord/ext/voice_recv/reader.py:1040-1042 | sorting by 16-bit distance gives true sending order, whatever the anchor and the order before |
| `Rollover.HalfARoundIsTooFar` | discord/ext/voice_recv/reader.py:1040-1042 | at a span of exactly 32768 the order is wrong |
| `Rollover.OverflowEvictsOldest` | discord/ext/voice_recv/reader.py:1049-1053 | the packet lost on overflow was sent first |
| `Rollover.QueuesInSendOrder` | discord/ext/voice_recv/reader.py:1028-1118 | over every run all queues are in sending order at all times, across rollover |
| `Turns.NoOvertaking` | discord/ext/voice_recv/reader.py:1084-1118 | over every run: once a packet waits, a later one of its source is routed after it if at all, unless the first is dropped |
| `Turns.RoutedInOrder` | discord/ext/voice_recv/reader.py:849-932 | the same, as positions among the packets routed |
| `Turns.PacketsDoWait` | discord/ext/voice_recv/reader.py:1140-1143 | the situation arises: a packet of an unknown sender waits |
| `Turns.FreshAsksOnlyIfNoneWaits` | discord/ext/voice_recv/reader.py:1267-1272 | the library is asked about a fresh packet only if nothing of its SSRC waits |
| `Progress.QueueEmptiesExactly` | discord/ext/voice_recv/reader.py:1084-1118 | a drain leaves nothing of a queue if and only if the library opens everything that is young and acceptable; it then hands on all of that in the order of the queue |
| `Progress.DueInSendOrder` | discord/ext/voice_recv/reader.py:1084-1118 | which is the order of sending |
| `Progress.DrainEmptiesExactly` | discord/ext/voice_recv/reader.py:1081-1125 | the same for all queues: they are emptied if and only if, and then everything young and acceptable leaves the decryptor |
| `Progress.EntryFate` | discord/ext/voice_recv/reader.py:1081-1118 | in any queue: an entry is released exactly if it is young and acceptable and the library opens everything such up to it, and stays exactly if it is so and something up to it is not opened |
| `Progress.PopExactly` | discord/ext/voice_recv/reader.py:1081-1125 | a pop drops a waiting packet if and only if it is too old, or unmarked in a strict session; lets it out if and only if the library opens all that is due up to it in its queue; else keeps it |
| `Progress.PopGives` | discord/ext/voice_recv/reader.py:1101-1107 | what it lets out carries what the library returned in that pop |
| `Progress.AskedExactly` | discord/ext/voice_recv/reader.py:1096-1101 | the library is asked about an entry exactly if it is due, nothing ahead is stuck, its sender is known and the session is ready |
| `Arrivals.ArrivalExactly` | discord/ext/voice_recv/reader.py:1241-1285 | where an arrival goes, by version, strictness, marker, well-formedness, sender, library and whether its SSRC waits: refused, passed through, opened at once or made to wait, with data, marks, reason and all queues afterwards |
| `Arrivals.DroppedAtOnceExactly` | discord/ext/voice_recv/reader.py:1254-1284 | with fewer than 1024 ahead of it, an arrival is dropped at once if and only if it is unmarked in a strict session, or marked but not well formed under version 0 |
| `Arrivals.ArrivalAsks` | discord/ext/voice_recv/reader.py:1131-1167 | the library is asked about an arrival exactly if it is opened at once or has to wait because of the answer |
| `Arrivals.SyncExactly` | discord/ext/voice_recv/reader.py:829-831 | synchronising after a generation change empties the queues and drops exactly what was waiting; else it changes nothing |
| `Arrivals.NewGenerationDrops` | discord/ext/voice_recv/reader.py:1055-1066 | whatever step observes a new generation first drops what was waiting |
| `Arrivals.LetOutIsDecoded` | discord/ext/voice_recv/reader.py:1131-1167 | over every run: no packet leaves the decryptor that is still marked as in need of inner decryption, so no decoder skips it for that |
| `Tallies.PopTally` | discord/ext/voice_recv/reader.py:1086-1115 | what a pop adds to each counter: recovered, expired, refused as plaintext, lost to a new generation |
| `Tallies.ArrivalTally` | discord/ext/voice_recv/reader.py:1028-1053 | what an arrival adds to each counter: queued, overflow, lost to a new generation |
| `Tallies.OtherTally` | discord/ext/voice_recv/reader.py:1055-1066 | the other steps count only what is lost to a new generation |
| `Reading.AudioReader.Callback` | discord/ext/voice_recv/reader.py:849-932 | the callback takes exactly the steps of `Pipeline`, with anything the surroundings do between its locked parts and before each packet routed; for other media and failed transport decryption it does nothing |
| `Reading.AudioReader.FirstHalf` | discord/ext/voice_recv/reader.py:877-877 | decrypting under the lock is the step `Receive1` |
| `Reading.AudioReader.SecondHalf` | discord/ext/voice_recv/reader.py:880-930 | collecting is the step `Receive2`; then the recovered packets and the packet in hand are routed one by one |
| `Reading.AudioReader.RouteAll` | discord/ext/voice_recv/reader.py:917-919 | each packet routed is a step, and what is routed in all is what was popped |
| `Reading.AudioReader.Interleave` | discord/ext/voice_recv/reader.py:853-932 | of the steps other threads want to take, exactly the possible ones happen |
| `Reading.AudioReader.RetryRound` | discord/ext/voice_recv/reader.py:833-847 | one round of the retry loop: a pop, then one step for each packet routed |
| `Reading.AudioReader.SyncDaveSession` | discord/ext/voice_recv/reader.py:829-831 | synchronising is one step |
| `Reading.AudioReader.AlwaysAccounted` | discord/ext/voice_recv/reader.py:849-932 | at any time in the life of a reader the counters add up and every packet accepted is in exactly one place |
| `UnknownSenders.UnknownSsrcs.ExpirePendingUnknown` | discord/ext/voice_recv/reader.py:701-707 | taking old packets off the front of each queue is filtering the queue by age; empty queues are deleted; what goes is counted |
| `UnknownSenders.UnknownSsrcs.TakePendingUnknown` | discord/ext/voice_recv/reader.py:709-716 | what is young of one SSRC is taken out, in order |
| `UnknownSenders.UnknownSsrcs.QueuePendingUnknownPacket` | discord/ext/voice_recv/reader.py:718-727 | the packet joins the young ones and the newest 32 stay |
| `UnknownSenders.UnknownSsrcs.FlushOne` | discord/ext/voice_recv/reader.py:735-741 | audio is fed and counted, the rest only counted |
| `UnknownSenders.UnknownSsrcs.RouteRtpPacket` | discord/ext/voice_recv/reader.py:743-820 | the two tests, the flush between them and the end are the steps of `UnknownRuns`, with anything the gateway does before each |
| `UnknownSenders.UnknownSsrcs.FlushPendingUnknownForSsrc` | discord/ext/voice_recv/reader.py:729-741 | taking is one step and feeding each packet another, with anything the receive thread does before each |
| `UnknownSenders.UnknownSsrcs.Meanwhile` | discord/ext/voice_recv/voice_client.py:260-271 | of the steps the gateway wants to take, exactly the possible ones happen |
| `UnknownSenders.UnknownSsrcs.AlwaysAccounted` | discord/ext/voice_recv/reader.py:701-820 | at any time the counters add up, nothing was fed twice, queues hold 1 to 32 packets oldest first, and order was kept if and only if nothing overtaken was fed later |
| `UnknownQueue.FirstIsOldest` | discord/ext/voice_recv/reader.py:701-707 | if the first of an ordered queue is young, all are |
| `UnknownQueue.QueuedIsKempt` | discord/ext/voice_recv/reader.py:718-727 | each queue keeps 1 to 32 packets of its SSRC, by time and by arrival |
| `UnknownRuns.StepKeepsNeat` | discord/ext/voice_recv/reader.py:701-820 | every step of either thread keeps the line of each SSRC in order of arrival: what the gateway has taken, what the receive thread has taken, what is held, the packet being routed |
| `UnknownRuns.OvertakenExactly` | discord/ext/voice_recv/reader.py:729-820 | when a packet is fed, the earlier ones of its SSRC still to come are exactly those in the gateway's hands and, for a fresh packet, those held and young |
| `UnknownRuns.OrderIsKeptExactly` | discord/ext/voice_recv/reader.py:743-820 | over every interleaving: the order of arrival is kept if and only if none that was overtaken is fed later |
| `UnknownRuns.FedOnce` | discord/ext/voice_recv/reader.py:729-820 | over every interleaving no packet is fed twice |
| `UnknownRuns.RunBalances` | discord/ext/voice_recv/reader.py:701-760 | over every interleaving: queued equals flushed plus non-audio plus expired plus overflow plus held plus what the threads have in their hands |
| `UnknownRuns.OvertakingHappens` | discord/ext/voice_recv/voice_client.py:264-271 | a run in which the later packet is fed first although its user was known at both tests |
| `UnknownFates.TakenExactly` | discord/ext/voice_recv/reader.py:709-716 | flushing takes exactly the packets of the SSRC held for no more than half a second, oldest first; of the others those stay |
| `UnknownFates.QueuedExactly` | discord/ext/voice_recv/reader.py:718-727 | after holding a packet back exactly the newest 32 of the young ones and itself are held, in order |
| `UnknownFates.FlushExactly` | discord/ext/voice_recv/reader.py:735-741 | a flushed packet is fed and counted as flushed exactly if its SSRC carries audio, else counted as non-audio |
| `UnknownFates.HoldExactly` | discord/ext/voice_recv/reader.py:763-770 | a packet of an unknown user is held exactly if it is not silence and the kind of its SSRC is unknown; what is counted |
| `UnknownFates.FreshIsFedExactly` | discord/ext/voice_recv/reader.py:762-820 | over every run: the packet being routed is fed at once if and only if its user was known at the second test, the last thing the thread did before |
| `UnknownFates.FlushesExactly` | discord/ext/voice_recv/reader.py:746-761 | over every run: what was held of its SSRC is flushed before the second test if and only if its user was known at the first |
| `EndToEnd.FedInSendOrder` | discord/ext/voice_recv/reader.py:743-932 | decryptor and unknown-SSRC queues together: if nothing overtaken is fed later, a packet that waited is fed to the router before a later one of its source |

## Left out

- Cryptography, the end-to-end library and libopus: boxes and oracles with a stated set of outcomes.
- Exceptions other than `CryptoError` in a callback, after which the source routes the packet as it is; and whatever
  follows once the reader has an error.
- The reader's life cycle: `start`, `stop`, `close` (which clears the queues without flags or counters), key updates.
- A decryptor without a voice client; the three xsalsa20 modes; RTCP.
- Time: one reading of the clock for each locked operation. The waits of `threading.Event`, and wake-ups lost between
  a check and a wait; the router's methods are taken as atomic.
- The unknown-SSRC code looks up a packet's media kind and feeds it in one step; one gateway thread flushes. Drop notices
  and their counts are logging.
- Pops of the jitter buffer that wait (a timeout above zero); the source's decoder never does.
- JitterBuffer.HeapJitterBuffer.Flush: does not model the library's sort where packets cannot all be compared; it is an
  insertion sort, whose order may then differ.
- Jitter-buffer order across rollover or with duplicate numbers, beyond `SwappedPairIsSortedExactly`: the comparison is
  not a total order there.
- Caching of members and user ids, sinks, decoding itself, `AudioSink` writes beyond their order.
- Statistics other than the counters named above, nonce samples, JSONL capture, logging, keepalive, speaking timers.
- CSRCs in the `rtpsize` round trip: the header given to the box lacks them (`UnwrapsExactlyWithoutSources`).
- The SSRC maps of the voice client: their answers are inputs.
