# Models and proofs for coop_rudp and its benchmark kit

This project models, in Dafny, the reliable UDP transport `coop_rudp` and the parts of the benchmark kit and of the
orchestrator whose numbers are compared across transports, and proves what they are for.

- The **sending endpoint**: one pool of message slots shared by all connections, priority rings, a batch of packets, a
  table of sent packets with references to their messages, losses, late acknowledgements, replacement of queued
  messages, and the end of a connection. Its runs interleave all connections and all operations.
- The **receiving endpoint**: acknowledgement bitmap, window of delivered message ids, ordered delivery with a bounded
  table of held messages, reassembly of fragments, and the event queue of the application.
- The **two endpoints together**, over a network that delays, repeats, reorders and loses packets.
- The **wire format**, its buffers, and what a receiver accepts.
- The **data structures**: circular buffers, the connection table with backward-shift deletion, growing hash tables.
- The **token buckets** of flows and of pacing.
- The **metrics** of a process, the file it writes, the checks the orchestrator makes of such files, and their merge.
- The **plan** of scheduled messages, the loops of benchmark client and server around it, and the **control protocol**
  that agrees on the measurement window.
- The **deterministic loss trace**: how many packets it drops in a range.

Where the source updates something in place the model is a class or a method with loops (`Ring`, `ConnTable`,
`Growing`, `Tracker`, `Window`, both endpoints, `PacketBuffer`, the buckets, `Hist`, `Metrics`, `Merged`, `Plan`,
`Driver`, `Server`, `LossProgram`); its methods are proved to compute functions, and the properties are proved of these
functions, of the states they lead to, and of whole runs. What an operation decides is also stated in the fields it
decides by: who is replaced and who is admitted (`Replacement`, `Admission`), which packets are given up and when
(`PacketFates`, `PacketTimes`), what becomes of a frame (`DeliveryOutcomes`, `FragmentOutcomes`), what the metrics gain
(`MetricsOutcomes`, `MetricsSampling`), and how a slot ended (`SlotAccounting.Accounted`).

Numbers that wrap around in the source (packet numbers, ordered numbers) are compared with the unbounded numbers they
stand for; numbers that saturate or truncate do so in the model. Times, sizes of messages, what the socket accepts and
what the application calls are inputs.

`dafny verify dfyconfig.toml` verifies everything.

## Findings

Properties the code does not have for every configuration or input. Each is proved together with the exact condition
under which it holds.

- **Table sizes.** The gate of 64 packet numbers keeps numbers that are in flight in different slots, and within 64 of
  each other, exactly if the size of the table of sent packets is such that 2^32 modulo the size is not between 2 and
  63 (`SackWindow.SlotsApartIff`, `SenderWrap.WindowIff`). Every power of two from 64 on is such a size
  (`SackWindow.PowersAreSafe`); 65 is not. For the others the gate lets a number through at the wrap-around that is 64
  or more past one still in flight (`SenderWrap.FailsAtWrap`). No record is overwritten in any configuration
  (`SenderTheorems.RecordsSurviveFlush`).
- **Lost messages.** Only in the configuration with the gate is the number of outstanding messages bounded below the
  size of the retransmission ring, so that a loss never drops a message (`SenderTheorems.OutstandingBounded`,
  `SenderTheorems.LossesAreRetried`); otherwise a message of a lost packet is dropped only if at least as many messages
  of its flow are outstanding as the ring has places (`SenderTheorems.RoomMeansCovered`).
- **Forgetting.** The window of delivered ids is exact for ids fewer than 1024 blocks of 64 behind the newest. An id
  exactly 1024 blocks behind can lie fewer than 65536 behind and be forgotten (`DedupWindow.ForgetsAcross1024Blocks`);
  an id 65536 or more behind is taken for delivered.
- **Refills at time 0.** `refill_flow` takes 0 for "never refilled". A flow keeps its rate exactly if the last refill
  was at another time, or if the bucket can hold nothing (`TokenBuckets.BoundedIff`).
- **Close refills.** The fraction of a byte a refill rounds down is lost: refills closer than one byte's worth of the
  rate add nothing, and only those; a flow that is refilled that often starves (`TokenBuckets.RefillAddsNothing`,
  `TokenBuckets.CloseRefillsStarve`).
- **Direction 3.** A measured slot with the unused direction 3 credits a class but no series. Exactly then do the sums
  of the metrics stop agreeing, and exactly then is the file written from them rejected (`Metrics.Metrics.OnSlot`,
  `MetricsFile.ObjectAccepted`).
- **Bins.** A reported percentile is within a sixteenth above the sample exactly for samples from 941 to 999 and from
  1063 up to the maximum of 10^11 ns; below, bin 0 reports 1000 (`Histogram.UpperIsTight`).
- **Late plans.** The number of measured slots is in the range the orchestrator expects exactly if the plan did not
  start later than one interval, and the remainder of the duration by the interval, after the window. The plan of the
  server starts when all clients have registered, which may be after it (`SlotMerge.WindowCount`).
- **A margin of 0.** A window acknowledged with a margin of exactly 0 counts as taken over in time. A process that
  drained its plan in the very nanosecond in which the window starts and also took it over in that nanosecond misses
  one slot, the one of that nanosecond; nothing else can be missed in a valid run
  (`MeasuredRuns.MeasuredInValidRun`).
- **Code that has no effect.** The branch that drops a message when it cannot be put back into its ring
  (`SenderFlushing.RoomInRing`), the second failure check of `rudp_send` (`SenderSend.NoLateFailure`), the guard against
  overflow in `refill_flow` (`TokenBuckets.FillIs`), the cut at zero in `pace_consume`, the cap on the sub-bin, the
  saturation of the byte counters, and the zeroing of the counters of a connection at its end are never reached or
  never change anything.

## Model

| member | source | states |
|---|---|---|
| `SerialNumbers.After32Exact` | coop_rudp/rudp.c:334-336 | the wrapped comparison of packet numbers orders unbounded numbers less than 2^31 apart exactly, and equal residues mean equal numbers |
| `SerialNumbers.After16Exact` | coop_rudp/rudp.c:330-332 | the same for ordered numbers less than 2^15 apart |
| `AckTracker.Tracker.Insert` | coop_rudp/rudp.c:509-534 | the receiver's record of a packet number and whether it is new, as the function `Inserted` of the old state |
| `AckTracker.InsertRefines` | coop_rudp/rudp.c:509-534 | `Inserted` adds the number to the set the maximum and bitmap stand for, in any order of arrival; it is new exactly if it is not in the set and at most 64 below the maximum |
| `AckTracker.CoversExact` | coop_rudp/rudp.c:879-886 | an acknowledgement names exactly the received packets that are at most 64 below its maximum |
| `DedupWindow.Window.Lookup` | coop_rudp/rudp.c:2301-2314 | the answer is `Seen` of the window's state |
| `DedupWindow.Window.Mark` | coop_rudp/rudp.c:2316-2328 | the new state is `Marked` of the old one |
| `DedupWindow.LookupExact` | coop_rudp/rudp.c:2301-2314 | an id fewer than 1024 blocks behind is reported as seen exactly if it was marked, one 65536 or more behind always |
| `DedupWindow.MarkRefines` | coop_rudp/rudp.c:2316-2328 | marking adds exactly that id to the set the window stands for |
| `DedupWindow.ForgetsAcross1024Blocks` | coop_rudp/rudp.c:2316-2328 | after 63 and 65536 were marked, 63 is not reported as seen |
| `WakeUp.ProcessedKeeps` | coop_rudp/rudp.c:2533-2590 | no frame, of any connection and with any content, leaves a held message that is next in order without an event of its connection in the queue |
| `WakeUp.ReceivedKeeps` | coop_rudp/rudp.c:2822-2844 | receiving keeps that, and uses up exactly one pending or held message |
| `WakeUp.ReceivingDrainsEverything` | coop_rudp/rudp.c:2822-2844 | receiving until the queue is empty leaves no held message that is next in order, on any connection and channel |
| `WakeUp.AbortedKeeps` | coop_rudp/rudp.c:1075-1107 | ending a connection keeps it, and leaves nothing of that connection held |
| `WakeUp.ReplacedKeeps` | coop_rudp/rudp.c:1193-1233 | a connection slot without held messages can be given to a new connection |
| `SentMessages.FragCountBound` | coop_rudp/rudp.c:1260-1268 | a message of an accepted size has between 1 and 256 fragments |
| `SentMessages.PositionFinds` | coop_rudp/rudp.c:1573-1714 | the number a message gets on its ordered channel is its position among the messages accepted on it |
| `OrderedDelivery.UnseenIsNew` | coop_rudp/rudp.c:2423-2477 | an id that arrives in time and is not reported as seen was neither enqueued nor held, and marking it keeps the window exact |
| `OrderedDelivery.Drained1Is` | coop_rudp/rudp.c:2365-2392 | the held message with the expected number is the next one of the channel, and draining it appends exactly it |
| `OrderedDelivery.AheadHeld` | coop_rudp/rudp.c:2330-2363 | a message ahead of the expected number is held if there is room, once; otherwise nothing changes |
| `OrderedDelivery.OutOfOrderOk` | coop_rudp/rudp.c:2423-2477 | out of order, a message behind is not delivered again, and one ahead is held or refused |
| `OrderedDelivery.DeliveredOk` | coop_rudp/rudp.c:2423-2477 | `deliver_frame` keeps the delivery invariant for every kind of message; when it reports success the message is enqueued or held |
| `DeliveryOutcomes.UnreliableOutcome` | coop_rudp/rudp.c:2427-2430 | an unreliable message is enqueued exactly if there is room, and else changes nothing |
| `DeliveryOutcomes.UnorderedOutcome` | coop_rudp/rudp.c:2435-2476 | a reliable unordered message that is not seen yet is enqueued and seen exactly if there is room; one that is seen changes nothing |
| `DeliveryOutcomes.OrderedOutcome` | coop_rudp/rudp.c:2451-2471 | of an ordered message numbered n where e is expected: n below e changes nothing, e itself is enqueued if there is room and the channel goes on to e + 1, above e it is held if there is a free hold and none with its number |
| `DeliveryOutcomes.SequencedOutcome` | coop_rudp/rudp.c:2439-2450 | a sequenced message changes nothing if its number is not after the latest; any other becomes the latest, and is enqueued exactly if there is room |
| `SequencedDelivery.NumbersRise` | coop_rudp/rudp.c:2439-2450 | in every run the numbers of the sequenced messages enqueued for one flow and channel strictly rise, as unbounded numbers |
| `SequencedDelivery.NewestPasses` | coop_rudp/rudp.c:2439-2450 | after every run, a sequenced message newer than all before it is enqueued if there is room |
| `DeliveryOutcomes.ExpiryOutcome` | coop_rudp/rudp.c:2506-2531 | a reassembly expires exactly when its time to live has passed since its first fragment; expiry changes nothing else |
| `Reassembly.OpenOk` | coop_rudp/rudp.c:2491-2522 | the slot found or made for a fragment is that of its message |
| `Reassembly.StoredOk` | coop_rudp/rudp.c:2533-2590 | a fragment that was missing is copied inside the buffer and the slot stays a part of its message |
| `Reassembly.CompleteContent` | coop_rudp/rudp.c:2533-2590 | when the counts agree the buffer holds the bytes that were sent |
| `Reassembly.WholeDeliveredOk` | coop_rudp/rudp.c:2533-2590 | handing over a complete message keeps the invariant of the connection |
| `Reassembly.ProcessedOk` | coop_rudp/rudp.c:2533-2590 | processing any fragment of an accepted message, in any order and any number of times, keeps the invariant of the connection |
| `FragmentOutcomes.OutsideRefused` | coop_rudp/rudp.c:2539-2558 | a frame whose index, count or end is outside a message changes nothing and is not acknowledged |
| `FragmentOutcomes.SlotOutcome` | coop_rudp/rudp.c:2565-2589 | a fragment that contradicts the slot of its message is refused, a repeated one acknowledged, a new one stored byte for byte; when none is missing the message is handed over and its slot freed, unless it is reliable and found no room |
| `FragmentOutcomes.NewSlotOutcome` | coop_rudp/rudp.c:2491-2522 | the first fragment of a message gets a slot that was free, with nothing in it and the time to live from now |
| `FragmentOutcomes.NoSlotLeft` | coop_rudp/rudp.c:2562-2564 | without a free slot nothing changes, and only a reliable fragment is not acknowledged |
| `ConnIsolation.ProcessedUntouched` | coop_rudp/rudp.c:2533-2590 | a frame of one connection, whatever it contains, changes nothing that belongs to another |
| `ConnIsolation.UntouchedOk` | coop_rudp/rudp.c:2655-2743 | the invariant of a connection survives whatever leaves the connection alone |
| `ConnIsolation.ReceivedOk` | coop_rudp/rudp.c:2822-2844 | receiving an event of any connection keeps the invariant of every connection |
| `ConnIsolation.ExpiredOk` | coop_rudp/rudp.c:2524-2531 | expiry of reassemblies keeps the invariant and forgets no delivered id |
| `Session.RecordOk` | coop_rudp/rudp.c:2655-2743 | a packet number is recorded only when all frames of the packet were handled, which keeps the invariant of the session |
| `Session.FreeOk` | coop_rudp/rudp.c:967-1010 | a message freed because an acknowledgement names a packet that carried it was handled by the receiver, even if the packet had been given up as lost |
| `Session.StepOk` | coop_rudp/rudp.c:2655-2743 | every step of sender, network, receiver and application keeps the session's invariant |
| `SessionTheorems.OrderedDeliveryIsPrefix` | coop_rudp/rudp.c:2365-2392 | in every run, at every moment, the ordered payloads enqueued for a channel are a prefix of those accepted on it |
| `SessionTheorems.ReliableExactlyOnce` | coop_rudp/rudp.c:2423-2477 | every reliable event of a run is an accepted message with its flow, channel, kind and bytes, and no message has two events |
| `SessionTheorems.AcknowledgementsAreSound` | coop_rudp/rudp.c:852-877 | a message freed by an acknowledgement was enqueued or is held, unless its id came 65536 or more behind the newest |
| `SessionTheorems.RunsNeverLoseWakeUps` | coop_rudp/rudp.c:2822-2844 | in every state of every run, receiving until the queue is empty drains everything that is next in order |
| `EndToEnd.PoolAfterSubmit` | coop_rudp/rudp.c:1573-1714 | an accepted submission adds one message to the history, and every fragment in the pool is a fragment of the history's message under its id, number and bytes |
| `EndToEnd.FramesHandled` | coop_rudp/rudp.c:2655-2743 | a packet of true frames is processed as the fragments it names |
| `PacketOutcomes.PacketOutcome` | coop_rudp/rudp.c:2695-2742 | the frames of a packet are processed one after the other, and its number is acknowledged exactly if it has one, every frame was handled, and one is reliable or packets without reliable frames are acknowledged too |
| `EndToEnd.EmitAll` | coop_rudp/rudp.c:1971-2011 | the packets the socket takes are, one after the other, packets the session may emit: with fragments of accepted messages, and numbers above all earlier ones |
| `EndToEnd.CarriersAfterFlush` | coop_rudp/rudp.c:1899-1936 | each packet number remembered as having carried a message is the number of a packet on the network that carried it |
| `EndToEnd.CoveredIsFreeable` | coop_rudp/rudp.c:897-916 | a message one of whose packets an acknowledgement names may be freed in the session |
| `EndToEnd.SubmitsGood` | coop_rudp/rudp.c:1573-1714 | a submission keeps the invariant that joins sender, history and network |
| `EndToEnd.FlushesGood` | coop_rudp/rudp.c:1971-2011 | so does a flush of which the socket takes any number of packets |
| `EndToEnd.ArrivesGood` | coop_rudp/rudp.c:2655-2743 | so does the arrival of any packet that was ever sent |
| `EndToEnd.AcksGood` | coop_rudp/rudp.c:1149-1191 | so does an acknowledgement, with everything it frees |
| `EndToEnd.OwnStepGood` | coop_rudp/rudp.c:2225-2273 | so do all other steps of the sending endpoint, of any connection |
| `EndToEnd.WorldStepGood` | coop_rudp/rudp.c:2822-2844 | so do all other steps of the receiving endpoint |
| `EndToEndTheorems.NewEndpointBegins` | coop_rudp/rudp.c:1235-1320 | a new endpoint that connects is a beginning of such runs |
| `EndToEndTheorems.RunExtends` | coop_rudp/rudp.c:2225-2273 | every step the two endpoints can make from a state of a run continues the run |
| `EndToEndTheorems.RunsAreSessions` | coop_rudp/rudp.c:2225-2273 | every run of the two endpoints is, seen from the receiver, a run of the session |
| `EndToEndTheorems.NothingIsAltered` | coop_rudp/rudp.c:489-507 | everything in the pool and on the network is a fragment of an accepted message, with its id, number and bytes |
| `EndToEndTheorems.OrderedIsPrefix` | coop_rudp/rudp.c:2365-2392 | the ordered payloads the receiver enqueued are a prefix of those the sender's `rudp_send` accepted |
| `EndToEndTheorems.AcksAreSound` | coop_rudp/rudp.c:852-877 | in the configuration with the gate, the sender frees a reliable message of one fragment on an acknowledgement only if the receiver enqueued or holds it, or took its id for 65536 or more behind |
| `Ring.InsertAtFirstLower` | coop_rudp/rudp.c:414-439 | insertion by priority is insertion before the first message of lower priority |
| `Ring.Ring.Push` | coop_rudp/rudp.c:384-390 | a value is appended exactly if one place stays empty |
| `Ring.Ring.PushFront` | coop_rudp/rudp.c:392-398 | the same at the front |
| `Ring.Ring.Peek` | coop_rudp/rudp.c:400-404 | the front, which stays |
| `Ring.Ring.Pop` | coop_rudp/rudp.c:406-412 | the front is removed; nothing else changes |
| `Ring.Ring.PushPriority` | coop_rudp/rudp.c:414-439 | the turn of the circular buffer inserts by priority exactly if there is room |
| `Ring.Ring.RemoveValue` | coop_rudp/rudp.c:441-454 | the turn removes the first occurrence and keeps the order of the rest |
| `OpenAddressing.MissAtUnused` | coop_rudp/rudp.c:569-582 | a search that meets an unused slot has missed nothing: the key is nowhere in the table |
| `OpenAddressing.InsertKeepsOk` | coop_rudp/rudp.c:584-600 | an entry put where the search for its key ended keeps every key reachable and unique |
| `OpenAddressing.ShiftPasses` | coop_rudp/rudp.c:602-634 | an entry between whose home and place the hole does not lie can stay |
| `OpenAddressing.ShiftMoves` | coop_rudp/rudp.c:602-634 | another fills the hole and leaves one where it was, and the shift goes on from there |
| `OpenAddressing.ShiftDone` | coop_rudp/rudp.c:602-634 | at an unused slot every key is reachable again |
| `OpenAddressing.MoveDescends` | coop_rudp/rudp.c:602-634 | every move brings an entry nearer to its home, so the shift ends in a full table too |
| `ConnMap.ConnTable.Lookup` | coop_rudp/rudp.c:569-582 | finds exactly what the table maps, and nothing for id 0 |
| `ConnMap.ConnTable.Insert` | coop_rudp/rudp.c:584-600 | adds or replaces one key; fails only for id 0, or for a new key in a full table, without changing anything |
| `ConnMap.ConnTable.Remove` | coop_rudp/rudp.c:602-634 | removes one key and keeps every other one findable |
| `GrowingTable.Locate` | benchkit/src/metrics.c:136-164 | a search ends at the key, or at an unused slot if the key is nowhere |
| `GrowingTable.Growing.Rehash` | benchkit/src/metrics.c:209-235 | a larger table holds the same pairs |
| `GrowingTable.Growing.Add` | benchkit/src/metrics.c:166-198 | a key is new exactly if it was not there; only then is it added |
| `GrowingTable.Growing.Get` | benchkit/src/metrics.c:237-276 | finds exactly what was stored for the key |
| `GrowingTable.Growing.Put` | benchkit/src/metrics.c:237-276 | changes the record of one key in place |
| `GrowingTable.Growing.Clear` | benchkit/src/metrics.c:463-496 | empties the table in place |
| `ReceiverEndpoint.Endpoint.EnqueueRecv` | coop_rudp/rudp.c:734-754 | the queue of events, in place, as `Enqueued` of the old state |
| `ReceiverEndpoint.Endpoint.HoldOrdered` | coop_rudp/rudp.c:2330-2363 | holding a message, the skipped scan of an empty table included, is `Held` |
| `ReceiverEndpoint.Endpoint.DrainOrdered` | coop_rudp/rudp.c:2365-2392 | the loop with its early ends is `Drained` |
| `ReceiverEndpoint.Endpoint.DrainAllOrdered` | coop_rudp/rudp.c:2394-2402 | the loop over the channels with its early ends is `DrainedFrom` |
| `ReceiverEndpoint.Endpoint.Recv` | coop_rudp/rudp.c:2822-2844 | a message that fits is handed over and its connection drained; one that does not stays |
| `ReceiverEndpoint.Endpoint.DeliverFrame` | coop_rudp/rudp.c:2423-2477 | delivery on the arrays of the endpoint is `Delivered`, whose effect on each kind of message module DeliveryOutcomes states |
| `ReceiverEndpoint.Endpoint.FindOrAllocReasm` | coop_rudp/rudp.c:2491-2522 | the one loop that looks for the slot or the first free one is `OpenReasm` |
| `ReceiverEndpoint.Endpoint.ProcessDataFrame` | coop_rudp/rudp.c:2533-2590 | a frame, whole or a fragment, is processed as `Processed` says, whose effect in every case module FragmentOutcomes states |
| `ReceiverEndpoint.Endpoint.ExpireReassembly` | coop_rudp/rudp.c:2524-2531 | the loop is `Expired` |
| `Fragments.FragmentAccepted` | coop_rudp/rudp.c:2592-2641 | every fragment the sender makes of an admissible message passes the receiver's validation |
| `Fragments.SplitPackRead` | coop_rudp/rudp.c:2592-2653 | a packet of such fragments is read back as it was packed |
| `Fragments.AnyOrder` | coop_rudp/rudp.c:2533-2590 | fragments in any order, repeated, at any times, only fill a slot until the last one arrives; then the message is delivered once, and later ones change nothing |
| `Fragments.AnyOrderUnordered` | coop_rudp/rudp.c:2533-2590 | the queue then has one more event, with the bytes that were sent |
| `Wire.FlagsOneToOne` | coop_rudp/rudp.c:2404-2421 | valid flags and the four reliabilities correspond one to one |
| `WireBytes.UnpackPacked` | coop_rudp/rudp.c:347-376 | fields written in little-endian order are read as they were |
| `WireBytes.PackUnpacked` | coop_rudp/rudp.c:347-376 | fields that were read are written as they were |
| `Wire.ReadWritten` | coop_rudp/rudp.c:489-507 | a frame that was written is well formed and read as it was, whatever follows it |
| `Wire.WrittenRead` | coop_rudp/rudp.c:2592-2641 | what is well formed is what would be written for the frame that is read |
| `Wire.FramesRoundTrip` | coop_rudp/rudp.c:2592-2641 | a payload is read as some frames exactly if it is their encoding and each is acceptable |
| `Wire.ValidatePacketFrames` | coop_rudp/rudp.c:2592-2641 | the validating loop accepts exactly the payloads that can be read |
| `Wire.ReadFrames` | coop_rudp/rudp.c:2655-2743 | the reading loop reads those frames |
| `Wire.PacketRoundTrip` | coop_rudp/rudp.c:2643-2743 | bytes are taken for a packet exactly if they are its encoding and the packet is one that may be sent |
| `WireBuffer.Store` | coop_rudp/rudp.c:347-361 | the bytes of a field are stored at an offset, and no others change |
| `WireBuffer.WriteFrameHeader` | coop_rudp/rudp.c:489-507 | the header's fields stand in the buffer, and nothing around them changes |
| `WireBuffer.PacketBuffer.Append` | coop_rudp/rudp.c:2106-2128 | the buffer is the encoding of the packet with the new frame exactly if that fits, and else of the packet before |
| `SackWindow.DistinctSlots` | coop_rudp/rudp.c:2013-2031 | two numbers of one window of 64 have different slots of the table, if its size is safe |
| `SackWindow.CollisionAtWrap` | coop_rudp/rudp.c:2013-2031 | for every other size from 64 on there are two numbers of one window with the same slot |
| `SackWindow.SlotsApartIff` | coop_rudp/rudp.c:2013-2031 | so the condition on the size is exact; 65 does not satisfy it |
| `SackWindow.PowersAreSafe` | coop_rudp/rudp.c:1248-1248 | every power of two from 64 on, such as the default of 4096, satisfies it |
| `SackWindow.GateExact` | coop_rudp/rudp.c:2044-2060 | the gate's 32-bit difference is the difference of the unbounded numbers |
| `SackWindow.ArrivedStaysCovered` | coop_rudp/rudp.c:879-886 | a packet that arrived, less than 64 below the newest number, is named by every acknowledgement from then on |
| `MessagePool.InsertByPriority` | coop_rudp/rudp.c:414-439 | the ring has exactly one more message, and no other |
| `MessagePool.Removed` | coop_rudp/rudp.c:441-454 | at most one occurrence leaves, no other message does |
| `PoolTallies.TotalBound` | coop_rudp/rudp.c:688-701 | a byte counter is at most the number of slots times the largest payload |
| `SenderOps.RingLengthExact` | coop_rudp/rudp.c:378-390 | with nothing on its way out of a ring, its length is the number of messages it has to have room for |
| `SenderAcks.FullRingOutstanding` | coop_rudp/rudp.c:1814-1828 | a retransmission ring without room means as many outstanding messages of the flow as the ring has places |
| `SenderAcks.Released` | coop_rudp/rudp.c:852-877 | an acknowledged packet's record is given up; each message it touched was named by the acknowledgement or is unchanged |
| `SenderAcks.MarkedLost` | coop_rudp/rudp.c:1830-1852 | a lost packet's record is given up; its messages wait for retransmission, were named late, or found a full ring |
| `SenderAcks.TrackedLoop` | coop_rudp/rudp.c:1149-1191 | going through the tracked numbers keeps the invariant and the record of every other number |
| `SenderAcks.TrackedKeepsLive` | coop_rudp/rudp.c:1149-1191 | the queue keeps its order and loses only numbers whose record is no longer live |
| `SenderAcks.LateAcks` | coop_rudp/rudp.c:967-1010 | the scans with their shortcuts free exactly the messages a scan of the whole pool would: those one of whose lost packets is named |
| `SenderFlush.NewPacketTakes` | coop_rudp/rudp.c:2138-2159 | a new packet always has room for the message it was opened for |
| `SenderFlush.Appended` | coop_rudp/rudp.c:2138-2159 | a message is in a packet of its connection, within the sizes, or nothing but the numbering changed |
| `PacketSizes.PacketsFit` | coop_rudp/rudp.c:2094-2159 | in every state of every run, every packet of the batch, encoded with all its messages, is exactly as long as is noted for it and no longer than the MTU |
| `SenderBatch.RecordSetLoose` | coop_rudp/rudp.c:1899-1936 | the record slot a sent packet takes was not in use |
| `SenderBatch.PacketSent` | coop_rudp/rudp.c:1899-1936 | its reliable messages are references of its record, its unreliable ones are free |
| `SenderBatch.ListPutBack` | coop_rudp/rudp.c:1959-1969 | the messages of a packet that was not sent are back at the front of the rings they came from, in their order |
| `SenderBatch.PacketsPutBack` | coop_rudp/rudp.c:1971-2011 | for all packets that were not sent the rings have the order they had before they were picked |
| `SenderBatch.BatchFlushed` | coop_rudp/rudp.c:1971-2011 | after a flush the batch is empty and no message is left in it, however many packets the socket took |
| `SenderSend.ReplacedDropped` | coop_rudp/rudp.c:1516-1571 | exactly the messages of the ring that match the new one are freed; `Replacement.SendOutcome` says in their fields which these are |
| `SenderSend.AdmittedFits` | coop_rudp/rudp.c:1573-1714 | the admission checks count what the replacement is going to free |
| `SenderSend.NoLateFailure` | coop_rudp/rudp.c:1573-1714 | after them neither the allocation nor the push of any fragment can fail |
| `SenderSend.Send` | coop_rudp/rudp.c:1573-1714 | all or nothing: accepted exactly if no check refuses; then every fragment is in the ring and the replaced messages are gone, and else nothing changed |
| `Replacement.SendOutcome` | coop_rudp/rudp.c:1516-1571 | after an accepted submission a queued message is gone exactly if both are unreliable and of one kind, on one connection, flow and channel, with the same replace key, which is not zero or the kind is sequenced; all others are where they were, and the fragments of the new one are queued |
| `Replacement.DifferentStay` | coop_rudp/rudp.c:1521-1531 | of two messages that differ in flow, channel, kind or replace key both stay queued |
| `Replacement.ExpiresWhen` | coop_rudp/rudp.c:1725-1767 | a message is dropped at the head of its ring exactly if its own or its flow's delay has passed since it was submitted and it is not ordered and reliable |
| `Admission.AcceptedIff` | coop_rudp/rudp.c:1573-1660 | a message is accepted exactly if the connection is up, flow, channel and length are valid, the flow is not stopped, and with the obsolete messages gone and the new one in neither the limit of the flow's bytes, nor the pool, nor the ring is exceeded; else nothing changes |
| `SenderSend.InsertStable` | coop_rudp/rudp.c:414-439 | a ring stays sorted by priority, and equal priorities stay in order of arrival |
| `SenderSend.FragmentsTogether` | coop_rudp/rudp.c:1573-1714 | the fragments of a message end up next to each other and in order |
| `SenderSteps.AckReceived` | coop_rudp/rudp.c:1149-1191 | an acknowledgement resolves messages as it may, touches no numbering, and nothing of other connections |
| `SenderSteps.AckReleases` | coop_rudp/rudp.c:1149-1191 | afterwards no message of the connection is left one of whose lost packets it names |
| `SenderSteps.TurnTimedOut` | coop_rudp/rudp.c:1854-1897 | the retransmission timer frees nothing as acknowledged and touches no other connection; `PacketFates.TimerFates` says exactly which packets it gives up |
| `PacketFates.TrackedFates` | coop_rudp/rudp.c:1149-1191 | going through the tracked numbers a record in use stays in use exactly if its cause does not end it: for an acknowledgement if it is not covered and less than three numbers behind, for the timer if its time is not up |
| `PacketFates.TimerFates` | coop_rudp/rudp.c:1854-1897 | after the timer a tracked record that was in use is in use exactly if now is before the time it was sent plus the timeout, that sum cut at the maximum |
| `PacketFates.AckFates` | coop_rudp/rudp.c:1149-1191 | when the tracked numbers are gone through for an acknowledgement, a record in use stays in use exactly if its number is not covered and the acknowledged maximum is less than three past it; its messages are free, unchanged, or wait for retransmission accordingly |
| `PacketFates.LateFates` | coop_rudp/rudp.c:967-1010 | a message that lost packets is freed by an acknowledgement exactly if it covers one of those numbers |
| `PacketFates.LossRemembered` | coop_rudp/rudp.c:897-908 | a message of a lost packet that waits for retransmission remembers the number of that packet |
| `PacketTimes.FlushRecords` | coop_rudp/rudp.c:1899-1936 | after a flush every packet with a reliable message that the socket took has a record with the time of that flush, and all other records are as they were |
| `PacketTimes.RecordTimes` | coop_rudp/rudp.c:1899-1936 | in every run the time of a record in use is that of the flush that sent its packet |
| `SenderSteps.FlushedOwners` | coop_rudp/rudp.c:1971-2011 | a flush makes no message outstanding that was not, and alters none |
| `SenderSteps.Aborted` | coop_rudp/rudp.c:1075-1107 | an ended connection owns no slot and no record, and every slot of another connection is as it was |
| `SenderHistory.StepContinues` | coop_rudp/rudp.c:2225-2273 | in every other step a connection's messages keep content and carriers, and packet numbers only grow |
| `SenderHistory.FlushFaithful` | coop_rudp/rudp.c:1971-2011 | in a flush too the content stays, retransmissions included |
| `SenderHistory.FlushCarriers` | coop_rudp/rudp.c:1899-1936 | a message's packets are those it had and the one it was sent in |
| `SenderWindow.GateMeans` | coop_rudp/rudp.c:2044-2060 | the gate lets a number through only if all live records, all tracked numbers and the batch stay within 64 of it |
| `SenderWindow.FirstTryFree` | coop_rudp/rudp.c:2062-2092 | then its slot is free |
| `SenderWindow.NumberedGated` | coop_rudp/rudp.c:2062-2092 | under the gate the number issued is the next one, and keeps the window |
| `SenderWindow.TrackedAppends` | coop_rudp/rudp.c:1132-1147 | the queue of tracked numbers never loses one by overflow |
| `SenderWindow.AppendedGated` | coop_rudp/rudp.c:2106-2159 | packing a message keeps the window, also when it makes an unreliable packet reliable |
| `SenderWindow.BatchFlushedGated` | coop_rudp/rudp.c:1971-2011 | a flush keeps the window of every connection |
| `SenderWrap.GatedIssues` | coop_rudp/rudp.c:2044-2092 | for a safe size every number issued is less than 64 past all numbers in flight |
| `SenderWrap.FailsAtWrap` | coop_rudp/rudp.c:2044-2092 | for every other size from 64 on there is a state with the window kept so far in which one is issued that is 64 or more past one in flight |
| `SenderWrap.WindowIff` | coop_rudp/rudp.c:2044-2092 | so the window is kept from every such state exactly for the safe sizes |
| `SenderCapacity.PacketSmall` | coop_rudp/rudp.c:2094-2128 | a packet in flight or in the batch carries at most 16 messages |
| `SenderCapacity.FlowBound` | coop_rudp/rudp.c:2044-2060 | a flow with nothing waiting for retransmission has at most 1024 messages outstanding |
| `SenderTheorems.InitialSafe` | coop_rudp/rudp.c:1235-1320 | a new endpoint satisfies the invariant |
| `SenderTheorems.StepSafe` | coop_rudp/rudp.c:2225-2273 | every step of every interleaving keeps it |
| `SenderTheorems.EverySlotInOnePlace` | coop_rudp/rudp.c:655-667 | in every reachable state every message slot is at exactly one position of exactly one list: free, a ring, the batch, or a record |
| `SenderTheorems.ReferencesMatch` | coop_rudp/rudp.c:888-895 | a reference of a record is a reliable message of that connection that travels in the record's packet |
| `SenderTheorems.CountersAreSums` | coop_rudp/rudp.c:688-701 | in every reachable state each byte counter is the sum of the lengths it stands for, and the late count is zero exactly if no message lost a packet |
| `SenderTheorems.LiveWithin64` | coop_rudp/rudp.c:2044-2060 | with the gate all live records are within 64 of the newest number, and tracked |
| `SenderTheorems.ArrivedIsNamed` | coop_rudp/rudp.c:879-886 | so a packet that arrived is named by every acknowledgement as long as its record lives |
| `SenderTheorems.OutstandingBounded` | coop_rudp/rudp.c:1814-1828 | with the gate a flow has at most 1024 outstanding messages, fewer than a ring holds |
| `SenderTheorems.RoomMeansCovered` | coop_rudp/rudp.c:1830-1852 | with fewer outstanding messages than a ring has places a message stays, goes to be retransmitted, or is freed because an acknowledgement names it |
| `SenderTheorems.LossesAreRetried` | coop_rudp/rudp.c:1854-1897 | with the gate the retransmission timer costs no message |
| `SenderTheorems.AcksFreeTheNamed` | coop_rudp/rudp.c:1149-1191 | with the gate an acknowledgement frees a message only if it names a packet that carried it |
| `SenderTheorems.RecordsSurviveFlush` | coop_rudp/rudp.c:1899-1936 | in every configuration a flush leaves every record in use as it is |
| `SenderEndpoint.Endpoint.FreeMsg` | coop_rudp/rudp.c:655-667 | the slot is cleared and stacked on the free list, and a pending late count is settled |
| `SenderEndpoint.Endpoint.QueueRetransmit` | coop_rudp/rudp.c:1814-1828 | a message enters the retransmission ring by priority exactly if there is room, with its bytes counted |
| `SenderEndpoint.Endpoint.LoseRef` | coop_rudp/rudp.c:1830-1852 | one reference of a lost packet, on the arrays of the endpoint, is `Lost` |
| `SenderEndpoint.Endpoint.MarkPacketLost` | coop_rudp/rudp.c:1830-1852 | the loop over the references is `MarkedLost` |
| `SenderEndpoint.Endpoint.ReleaseSentPacket` | coop_rudp/rudp.c:852-877 | the loop over the references is `Released` |
| `SenderEndpoint.Endpoint.GoThroughTracked` | coop_rudp/rudp.c:1149-1191 | the loop over the tracked numbers, in place, is `TrackedDone` |
| `SenderFlushing.RoomInRing` | coop_rudp/rudp.c:1938-1957 | the ring a packed message came from has room for it |
| `SenderFlushing.RequeueMsg` | coop_rudp/rudp.c:1938-1957 | the message is back at the front of that ring |
| `SenderFlushing.Track` | coop_rudp/rudp.c:1132-1147 | a full queue is pruned, and then loses its head, before the number is appended |
| `SenderFlushing.RecordSentPacket` | coop_rudp/rudp.c:1899-1936 | the loop that fills the record is `ReliablesRecorded` |
| `SenderFlushing.RequeuePacket` | coop_rudp/rudp.c:1959-1969 | the loop from the last message to the first is `ListPutBack` |
| `SenderFlushing.FlushSendBatch` | coop_rudp/rudp.c:1971-2011 | both loops, in place, are `BatchFlushed` |
| `TokenBuckets.FlowBucket.SetLimit` | coop_rudp/rudp.c:1468-1483 | the tokens are cut to the new cap, and unlimited flows have the maximum |
| `TokenBuckets.FlowBucket.Refill` | coop_rudp/rudp.c:1485-1513 | the refill in 64-bit arithmetic is the refill in whole numbers |
| `TokenBuckets.FlowBucket.Take` | coop_rudp/rudp.c:1725-1767 | a message is taken exactly if the tokens cover it |
| `TokenBuckets.FillIs` | coop_rudp/rudp.c:1485-1513 | no product of the refill overflows, whatever the elapsed time |
| `TokenBuckets.FlowConserves` | coop_rudp/rudp.c:1485-1513 | over every run, tokens and released bytes are at most the tokens at first and what the rate comes to |
| `TokenBuckets.BoundedIff` | coop_rudp/rudp.c:1485-1513 | every run releases at most the cap and the rate times the time, exactly if the last refill was at a time other than 0 or the cap is 0 |
| `TokenBuckets.SpendTwiceAtZero` | coop_rudp/rudp.c:1485-1513 | at time 0 the cap can be spent twice |
| `TokenBuckets.AfterFirstRefill` | coop_rudp/rudp.c:456-467 | a new flow keeps the bound from its first refill on, if that is not at time 0 |
| `TokenBuckets.RefillAddsNothing` | coop_rudp/rudp.c:1485-1513 | a refill adds nothing exactly if the rate has not come to one byte since the last one |
| `TokenBuckets.CloseRefillsStarve` | coop_rudp/rudp.c:1485-1513 | any number of such refills leaves the tokens as they were |
| `TokenBuckets.Pacer.Refill` | coop_rudp/rudp.c:2192-2212 | the refill of pacing in 64-bit arithmetic is the refill in whole numbers |
| `TokenBuckets.Pacer.Consume` | coop_rudp/rudp.c:2214-2223 | when sending is allowed the tokens cover the frame |
| `TokenBuckets.PaceConserves` | coop_rudp/rudp.c:2192-2223 | over every run, tokens and released bytes are at most the tokens at first and what the rate comes to |
| `TokenBuckets.PaceNeverOverspends` | coop_rudp/rudp.c:2192-2223 | so a paced connection releases at most its burst and its rate times the time |
| `Histogram.HistIndex` | benchkit/src/metrics.c:343-364 | the shifting loop finds the bin of a value |
| `Histogram.IndexMonotone` | benchkit/src/metrics.c:343-364 | larger values fall into later bins |
| `Histogram.HistBinUpper` | benchkit/src/metrics.c:366-383 | the upper end of a bin |
| `Histogram.BinUpperNS` | orchestrator/run/metrics.go:943-965 | the orchestrator's computation of it agrees, for the layout of version 2 |
| `Histogram.UpperIsTight` | benchkit/src/metrics.c:366-383 | the upper end is above a value by at most a sixteenth, exactly for the values of two ranges |
| `Histogram.RankIsFound` | benchkit/src/metrics.c:391-417 | the scan for a rank stops in the bin of the sample with that rank |
| `Histogram.PercentileIsTight` | benchkit/src/metrics.c:391-417 | a reported percentile is at most a sixteenth above the true order statistic, in the range of tight bins |
| `Histogram.Hist.Add` | benchkit/src/metrics.c:385-389 | the histogram holds one more sample |
| `Histogram.Hist.Percentile` | benchkit/src/metrics.c:391-417 | reports the upper end of the bin of the sample with the rank, 0 if there is none |
| `Histogram.Hist.Merge` | orchestrator/run/metrics.go:880-901 | a merged histogram is that of all samples |
| `Histogram.MergedPercentile` | orchestrator/run/metrics.go:920-941 | so its percentiles are those of the union of the samples |
| `MetricsSeries.ClassSumCredit` | benchkit/src/metrics.c:289-323 | crediting one series credits the sum of its class, and of no other |
| `MetricsSeries.CreditedClassBreaks` | benchkit/src/metrics.c:515-548 | crediting a class without a series breaks the sums unless nothing is credited |
| `MetricsOutcomes.BookedIsReceived` | benchkit/src/metrics.c:577-672 | what a measured reception is booked as: for a first one class and series gain one sample of reception minus schedule, one of reception minus sending, a deadline hit exactly if it must be delivered and came by its deadline, and the gap since the last advance exactly if an observed flow advances; a duplicate adds to the duplicates only |
| `MetricsInvariants.BookedSound` | benchkit/src/metrics.c:577-672 | a measured reception keeps sums, the counts of deliveries and flows, and the deadline of every series |
| `MetricsSampling.SampledUntilAges` | benchkit/src/metrics.c:682-723 | a tick adds to each bin of the staleness of every series and of their sum, for every sampling time that has come, the number of sampled flows whose age at that time lies in the bin |
| `MetricsSampling.NextDueIsPeriods` | benchkit/src/metrics.c:682-723 | the next sampling time is the first one, whole periods after the last, that is later than the clock |
| `Metrics.Metrics.OnSlot` | benchkit/src/metrics.c:509-548 | class and series of an accepted measured slot gain one slot, a broadcast one if it is one and a submitted one if it was; the sums agree afterwards exactly if it is not a measured one of direction 3, of which only the class gains |
| `Metrics.Metrics.ExpectLatest` | benchkit/src/metrics.c:550-575 | exactly if its indices are valid a flow is expected from then on, from the earliest schedule given until something is observed; class and series gain one expected flow exactly if it was not expected yet |
| `Metrics.Metrics.OnRecv` | benchkit/src/metrics.c:577-672 | a measured reception is a delivery exactly once for its key: class and series gain its latencies from schedule and sending, its deadline hit and the update gap, all in its fields, and the record of its flow becomes the delivery exactly if nothing was observed yet or the schedule is later; a duplicate adds to the duplicates only; nothing else changes |
| `Metrics.Metrics.Tick` | benchkit/src/metrics.c:682-723 | every sampling time that has come gives one sample of each flow that is to be sampled, of the time since its schedule, in the sum and in its series, and no other; the next sampling time is the first later one |
| `Metrics.Metrics.SetTrafficDeadline` | benchkit/src/metrics.c:835-876 | exactly for a valid direction the configured deadline is changed, for existing series too: in every state every series has the deadline that is configured for it |
| `Metrics.Metrics.Reset` | benchkit/src/metrics.c:463-496 | everything measured goes, the configured deadlines stay |
| `MetricsFile.ValidateV2Histogram` | orchestrator/run/metrics.go:663-678 | accepts exactly the histograms of the layout whose bins add up to the count, overflow included |
| `MetricsFile.ValidateHistogramSum` | orchestrator/run/metrics.go:637-661 | accepts exactly the sum of the parts |
| `MetricsFile.ValidateConsistency` | orchestrator/run/metrics.go:502-557 | accepts exactly if every class is the sum of its series |
| `MetricsFile.ValidateTraffic` | orchestrator/run/metrics.go:418-500 | accepts exactly if every series is in order and no key occurs twice |
| `MetricsFile.ValidateMetricsFile` | orchestrator/run/metrics.go:418-500 | the loops together accept exactly the files that satisfy all conditions |
| `MetricsFile.CountsAreSum` | benchkit/src/metrics.c:674-680 | the counts of the written series add up to the written counts of the class, undelivered flows included |
| `MetricsFile.WrittenAccepted` | benchkit/src/metrics.c:988-1045 | what a process writes is accepted exactly if its sums agree |
| `MetricsFile.ObjectAccepted` | benchkit/src/metrics.c:988-1045 | of every state of the metrics object |
| `MetricsMerge.ClashesBefore` | orchestrator/run/metrics.go:713-777 | a series of a file can only clash with one from before the file |
| `MetricsMerge.Merged.Add` | orchestrator/run/metrics.go:713-777 | fails exactly if a series is there with another deadline; otherwise every series, every class and the staleness have the amounts of both, and the sums agree |
| `SlotMerge.MergeOrdered` | benchkit/src/plan.c:94-136 | slots come in the order of their times, ties in the order of the streams |
| `SlotMerge.DueExactly` | benchkit/src/plan.c:94-136 | when nothing is due any more, a slot of a stream was emitted exactly if its time has come |
| `SlotMerge.WindowCount` | orchestrator/run/scenario_metrics.go:257-276 | the slots of a stream in a window are never more than the expected range allows, and enough exactly if the plan did not start too late |
| `Plan.Plan.PeekNs` | benchkit/src/plan.c:80-92 | the least time of the streams |
| `Plan.Plan.Next` | benchkit/src/plan.c:94-136 | the next slot of the merge if it is due, flagged by the window, and none exactly if nothing is due |
| `Plan.Plan.Drain` | benchkit/src/sut.c:630-691 | the loop emits all slots that are due and no others |
| `SlotAccounting.Driver.Settle` | benchkit/src/control.c:390-423 | a window replaces the provisional one only before that opens, and only once |
| `SlotAccounting.Driver.Due` | benchkit/src/sut.c:630-691 | the slots up to the clock, but before the end of the window, are emitted, and none of them is left |
| `SlotAccounting.Driver.Rest` | benchkit/src/sut.c:552-566 | what is left before the end of the window is emitted in the end |
| `SlotAccounting.MeasuredInRange` | orchestrator/run/scenario_metrics.go:257-276 | the measured slots of a stream are those of the window later than what had been drained when it was taken over, and in the expected range exactly if the plan started in time |
| `SlotAccounting.RunClient` | benchkit/src/sut.c:584-698 | whatever the transport answers and whenever a window arrives, each slot before the end of the window is accounted once; an entry is unsent exactly if its slot is later than what the loop had drained, and sent exactly if it is not and the transport took it; the course follows `CourseAfter` |
| `SlotAccounting.NumbersDetermined` | benchkit/src/sut.c:552-566 | so the numbers of a stream are determined: unsent are its slots after the last drain, sent and refused together those before |
| `SlotAccounting.ServerSendSlot` | benchkit/src/sut.c:701-728 | one entry for every client, in order: sent exactly if the slot is submitted, the client connected and the transport accepts, unsent exactly if it is not submitted, and refused otherwise |
| `SlotAccounting.AwaitClients` | benchkit/src/sut.c:730-835 | the plan begins at the first turn in which all clients have registered, with the window as it is by then |
| `SlotAccounting.RunServer` | benchkit/src/sut.c:730-846 | each slot before the end of the window is accounted once for every client; an entry is unsent exactly if its slot is later than what the loop had drained, and sent exactly if it is not, the client was connected and the transport accepted it |
| `SlotAccounting.NumbersForDetermined` | benchkit/src/sut.c:701-728 | the same for every client of a server |
| `ControlServer.StagesAdvance` | orchestrator/control/server.go:289-401 | a stage is left only for a later one, so the advancing ends |
| `ControlServer.WindowOutcome` | orchestrator/control/server.go:345-387 | the window stage is left exactly if the rates are steady and the least warm-up is over: with a window a guard from now that all are told, if that is earlier than the provisional one, and else with the provisional one |
| `ControlServer.Server.ApplyEvent` | orchestrator/control/server.go:602-712 | the effect of an event on the fields is `Apply`, errors included |
| `ControlServer.Server.AdvanceStage` | orchestrator/control/server.go:289-401 | the step between stages on the fields is `Advance` |
| `ControlServer.Server.HandleEvent` | orchestrator/control/server.go:223-287 | the loop of advancing after an event is `Handle` |
| `ControlServer.Server.TimerExpired` | orchestrator/control/server.go:223-287 | the timer ends the warm-up or fails the run |
| `ControlRuns.ProcessKeeps` | benchkit/src/control.c:226-423 | every step of a process keeps the invariant of the protocol |
| `ControlRuns.ApplyKeeps` | orchestrator/control/server.go:602-712 | so does every event the server handles |
| `ControlRuns.AdvanceAllKeeps` | orchestrator/control/server.go:289-401 | so does every advance, with the messages it broadcasts |
| `ControlRuns.AlwaysGood` | orchestrator/control/server.go:223-287 | so it holds after every interleaving of processes, channels, server and timer |
| `ControlRuns.Agreement` | orchestrator/control/server.go:289-401 | in every completed run all participants measured the window of the result, which was published once, has the configured length and time to drain, and starts no earlier than warm-up and guard allow; none ended before it was drained; a replaced window was taken over by all; in a valid run all took schedule and window before they started |
| `ControlRuns.PublishedAtMostOnce` | orchestrator/control/server.go:156-160 | no run ever publishes two windows |
| `MeasuredRuns.ProcessFollows` | benchkit/src/sut.c:630-691 | in every run of the protocol, the window of a process and what it had drained when it took one over are those of its loop |
| `MeasuredRuns.CourseInValidRun` | benchkit/src/control.c:346-388 | in a valid run nothing later than the start of the window had been drained by then, and that start itself only if both turns were at that nanosecond |
| `MeasuredRuns.MeasuredInValidRun` | orchestrator/run/scenario_metrics.go:257-276 | so in a completed valid run the measured slots, and the one that may be missing then, are as many as expected, exactly if the plan started in time |
| `LossTrace.CountRepeats` | orchestrator/netops/losstrace/bpf/losstrace.c:31-43 | the trace repeats after all its bits |
| `LossTrace.TurnAnywhere` | orchestrator/netops/losstrace/losstrace.go:184-215 | a whole turn drops the same number wherever it starts |
| `LossTrace.StretchOfWord` | orchestrator/netops/losstrace/losstrace.go:184-215 | a stretch inside a word drops as many as bits of the word are set there |
| `LossTrace.CountDropsInRange` | orchestrator/netops/losstrace/losstrace.go:184-215 | the number of packets the trace drops in a range of any length, without overflow, and the error cases exactly |
| `LossTrace.LossProgram.Egress` | orchestrator/netops/losstrace/bpf/losstrace.c:31-43 | a packet is dropped exactly if its bit is set, also when the counter has wrapped around |
| `LossTrace.LossProgram.Reset` | orchestrator/netops/losstrace/losstrace.go:154-167 | the replay begins anew |
| `LossTrace.LossProgram.Replay` | orchestrator/netops/losstrace/bpf/losstrace.c:31-43 | the program drops as many of the next packets as the count for their range says |

## Left out

Stated weaker than it might be:

- EndToEndTheorems.AcksAreSound: only messages of one fragment, since a fragment can be acknowledged and expire with
  its reassembly before the message is complete; only the configuration with the gate, since in the others a message
  may also be dropped for lack of room; and only while packet numbers are less than 2^31 apart from what is
  acknowledged.
- EndToEndTheorems.OrderedIsPrefix: fewer than 2^32 - 1 messages are accepted on a connection; message ids that wrap
  around are not modelled. The same holds for all results about sessions.
- Histogram.Hist.Percentile: the rank a percentage comes to is an input; it is computed in floating point in the
  source.
- Metrics.Metrics.OnRecv: the 64-bit counters do not overflow. The same holds for histograms and merged sums.
- Metrics.Metrics.Tick: the order in which the flows of the table are sampled is an input, of which only is known that
  it lists them all; the sums do not depend on it. The tables `seen` and `latest` are a set and a map in this class;
  that a growing table behaves as one is proved of `GrowingTable.Growing`, for any keys and values.
- TokenBuckets.FlowBucket.Refill: the clock does not run backwards between two refills, as in the source.
- ControlServer.Server.AdvanceStage: whether the rates are steady is an input; sending a schedule or a window to only
  some of the processes is a failed run.
- SlotAccounting.RunClient: one of the connections of a client; the intervals of the streams are given, their
  computation from rates is in floating point in the source.

Not modelled:

- Adaptation of the pacing rate, round-trip times, and the retransmission timeout, which is an input; the early return
  before the next retransmission time is due is a step that is not taken.
- The order in which connections and flows are served, deficits and fairness; the runs pick from any ring in turn.
- The policy that ends a connection (idle time, refusals); its end is a step that may be taken at any time.
- That messages are delivered in the end: all results say what can happen, none that something does.
- Statistics of flows, and the flag of a record that is set but not read.
- Sockets, addresses, threads, clocks, and the failure of allocations.
- JSON: files and messages of the control protocol are records.
- Implementations of the transport in other languages.
- In the sender, `rudp_send`, picking from the rings, the scans for late acknowledgements, and the end of a connection
  are functions on the state; releasing and losing packets, the walk over tracked numbers, and sending and requeueing a
  batch are loops on the arrays of an object. The circular buffers of the rings, whose operations are proved on arrays
  in `Ring`, are sequences there.
- References leave a record one by one instead of together at the end of its loop.
- The table index computed with a mask is a remainder by a power of two.
- A packet is decoded from the front of what is left of it instead of at an offset.
