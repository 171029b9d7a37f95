# Verified model of the serial bridge

The repository bridges ROS 2 topics to a microcontroller over a serial line. This project models
the parts of it that decide whether bytes arrive, and proves what they promise. Everything is
parametric in the generated configuration: header bytes, checksum algorithm, message table, buffer
size, retry threshold, handshake and heartbeat settings.

| file | what it models |
|---|---|
| `Checksums.dfy`, `ErrorDetection.dfy` | checksum algorithms, the CRC table generator, what each algorithm detects |
| `Wire.dfy` | frames, packing, the injected sequence byte |
| `StreamParser.dfy` | the pure leftmost parser over byte sequences, its soundness and completeness |
| `RingArithmetic.dfy`, `PacketHandler.dfy` | the power-of-two ring and the packet handler as a class over an array, refining that parser |
| `McuReceiver.dfy`, `McuDecoding.dfy` | the generated byte-at-a-time receiver, as a step function and as the class with its static fields; the decoder it amounts to |
| `LinkAgreement.dfy` | host and microcontroller decode each other's frames |
| `ReliableSender.dfy`, `CompletionOutcome.dfy`, `RetryAccounting.dfy` | the stop-and-wait sender with its timers and completions; what a write's outcome decides; when it warns |
| `Transport.dfy`, `Delivery.dfy`, `Collision.dfy`, `EventualDelivery.dfy` | the sender, two lossy first-in first-out channels and the receiver in one state machine: at-least-once delivery in order, exactly when it fails, and why nothing is beyond rescue |
| `SerialController.dfy` | the connection controller with its sender and its packet handler, as functions on its state and as the class over the ring |
| `ControllerChunk.dfy`, `ControllerSafety.dfy`, `ControllerProgress.dfy`, `ControllerShutdown.dfy`, `ControllerSender.dfy`, `SenderRefinement.dfy`, `TransmitOrder.dfy`, `HandshakeGate.dfy`, `ReadyTopic.dfy`, `StrandedLink.dfy` | what every run of the controller keeps |
| `ControllerDispatch.dfy`, `ControllerHeartbeat.dfy`, `LinkLoss.dfy` | what a received chunk shows to the topics, the heartbeat window on the link, when a link goes down and comes up |
| `Heartbeat.dfy`, `Conversation.dfy` | the heartbeat window; handshake and heartbeat from end to end |
| `Codegen.dfy`, `ProtocolHash.dfy` | validation, the message table, the hash input and the generated configuration |

Code that changes state in place is a class (`PacketHandler`, `Receiver`, `ReliableSender`,
`SerialController`) or a method with a loop. Its methods are proved equal to functions on a value
that mirrors the fields, and the properties of whole runs are lemmas about those functions. Handlers
run alone on one strand, so each is one atomic step; outstanding reads, writes, timers and
completions are part of the state, and events complete them in any order and with any outcome.

## Where the code and its promises differ

- The documentation promises at-least-once delivery of reliable messages. All IDs share one 8-bit
  sequence counter, so with several reliable IDs an acknowledgement of the previous message of an
  ID can be taken for one of the current message if a multiple of 256 assignments lies between the
  two. `Collision.SafeIffNoCollision` shows that this is the only way to lose a message, and that
  every history with such a collision has a run that loses one; `Collision.TwoIdsCanLose` names one.
- The ready topic can be left at true without a connection. It takes a reliable message whose frame
  cannot be sent, from within a read that fills the ring: the reset empties the ring in the middle of
  the loop over the bytes, and a handshake in the rest of them is still accepted.
  `ReadyTopic.ChunkSign` gives the condition on one read, `StrandedLink.ReadyAlwaysIffRoomy` the one
  on the configuration: it can happen exactly when the ring has no more than 2048 cells, that is when
  the configured buffer is smaller than the buffer of a read.
- A read that the operating system aborts on the present connection is not restarted
  (`ControllerProgress.DeafRun`), and an aborted write leaves the frames behind it waiting for the
  next send. `ControllerProgress.MovesIffNeverStalls` shows that nothing else stalls the link.
- Validation does not check the types of the built-in messages against the alias table, so aliasing
  `uint8_t` or `uint32_t` can change their sizes (`ProtocolHash.ValidIffBuiltInsKept`,
  `ProtocolHash.ShrunkBuiltInsAreAccepted`), and it lets a null message ID through, with which the
  messages cannot be sorted (`ProtocolHash.MergesIffNoNullId`, `ProtocolHash.NullIdIsAccepted`).
- The generated `send_X` of a reliable message is not what the host expects of that ID, since it has
  no sequence byte (`LinkAgreement.McuToHost`). Validation allows reliable messages from host to
  microcontroller only, so a correct application never calls it.

## Model

| member | source | states |
|---|---|---|
| `Delivery.AtLeastOnceInOrder` | include/auto_serial_bridge/reliable_sender.hpp:125-165 | For every run of the two-channel link (any losses, delays, retries, reconnections without clearing) whose assignments never give two consecutive messages of one ID the same sequence byte: the callbacks of each ID with repeats left out are a prefix of the messages sent, every message popped from the queue is among them, and at most one more is |
| `Delivery.OneIdIsDelivered` | include/auto_serial_bridge/reliable_sender.hpp:248-269 | With one reliable ID in use the same holds of every run, however often the shared sequence byte wraps |
| `Collision.SafeIffNoCollision` | include/auto_serial_bridge/reliable_sender.hpp:139-144 | Along a given history of sequence assignments every run delivers to every ID if and only if no two consecutive messages of one ID got the same byte |
| `Collision.CollisionLoses` | include/auto_serial_bridge/reliable_sender.hpp:248-269 | For any colliding history, a reachable state in which a message has been popped that the microcontroller never called back: losses, two retries and a stale acknowledgement |
| `Collision.TwoIdsCanLose` | include/auto_serial_bridge/reliable_sender.hpp:139-144 | Any two reliable IDs suffice: one message of the first, 255 of the second and one more of the first, and a run pops the last one undelivered |
| `EventualDelivery.EverythingCanArrive` | README.md:123-129 | From every reachable state without such a repetition, whatever was lost or failed, some continuation without new messages empties every queue, and then the callbacks of every ID, repeats left out, are exactly the messages sent |
| `EventualDelivery.Wake` | include/auto_serial_bridge/reliable_sender.hpp:167-246 | Whatever state the front of a queue is in, its write or its timer leads to a written front that waits for its acknowledgement |
| `Collision.Rounds` | include/auto_serial_bridge/reliable_sender.hpp:125-165 | From a state at rest, any further messages of IDs that are not stuck go through one by one, past stuck IDs |
| `Delivery.RunKeeps` | include/auto_serial_bridge/reliable_sender.hpp:109-269 | While no two consecutive messages of an ID share a sequence byte, every reachable state of the link meets the pipeline invariant: the acknowledgement channel followed by the data channel never goes down in message index per ID and holds only the current and the previous message |
| `Delivery.AcceptedAckIsCurrent` | include/auto_serial_bridge/reliable_sender.hpp:248-269 | Without such a collision an acknowledgement the sender accepts belongs to the front message itself, not to the one before it |
| `Delivery.AckKeeps` | include/auto_serial_bridge/reliable_sender.hpp:248-269 | Without such a collision delivering an acknowledgement keeps the invariant: what is popped had been called back |
| `Delivery.SubmitKeeps` | include/auto_serial_bridge/reliable_sender.hpp:109-123 | Sending a message keeps the invariant |
| `Delivery.LocalKeeps` | include/auto_serial_bridge/reliable_sender.hpp:167-246 | Completions, expiring timers and their handlers keep the invariant |
| `Delivery.DeliverDataIs` | scripts/codegen.py:525-532 | A data frame of the link makes the receiver call back once with exactly the message's bytes and acknowledge with its sequence byte |
| `Delivery.DeliverDataKeeps` | scripts/codegen.py:433-443 | Delivering a data frame keeps the invariant and the callbacks' staircase |
| `Delivery.DeliverAckIsOnAck` | src/serial_controller.cpp:552-567 | The bytes of an acknowledgement frame reach the sender as exactly one acknowledgement with that ID and sequence byte |
| `Delivery.LosingKeeps` | README.md:123-129 | Losing any frame of either channel keeps the invariant |
| `Delivery.CollapseIsPrefix` | README.md:123-129 | Callbacks that never skip, with repeats left out, are the first messages in order |
| `Transport.AttemptCarries` | include/auto_serial_bridge/reliable_sender.hpp:125-165 | An attempt hands over exactly the frame of the front message with its own sequence byte; a retransmission is byte for byte the first transmission |
| `Transport.AckCarries` | include/auto_serial_bridge/reliable_sender.hpp:248-269 | After an acknowledgement the queue of an ID is the unacknowledged messages in the order sent, each entry with its message's bytes |
| `Transport.SubmitCarries` | include/auto_serial_bridge/reliable_sender.hpp:109-123 | After a send the queue holds the new message last, the others unchanged |
| `Transport.LocalCarries` | include/auto_serial_bridge/reliable_sender.hpp:167-246 | Completions and timeouts change no queued message and hand over at most the front's frame |
| `ReliableSending.NoLostWakeUp` | include/auto_serial_bridge/reliable_sender.hpp:109-246 | In every reachable state each queue is non-empty, exactly its front is numbered, a front awaiting its acknowledgement is not being written, and something is under way for it: the completion of its current attempt, or a timer with its sequence byte |
| `ReliableSending.ReachableInv` | include/auto_serial_bridge/reliable_sender.hpp:109-269 | Every run keeps the sender's invariant: counter, queues, outstanding completions and armed timers fit together |
| `ReliableSending.ApplyKeepsInv` | include/auto_serial_bridge/reliable_sender.hpp:109-269 | Each of the five kinds of events keeps it |
| `ReliableSending.OnlyAcksRemove` | include/auto_serial_bridge/reliable_sender.hpp:248-269 | A send appends one entry, an accepted acknowledgement removes the front, no other event adds, removes or reorders an entry |
| `ReliableSending.OtherKeysUntouched` | include/auto_serial_bridge/reliable_sender.hpp:109-269 | An event about one ID leaves queue, timers and completions of every other ID alone |
| `ReliableSending.ClearedIsInert` | include/auto_serial_bridge/reliable_sender.hpp:271-281 | After clearing, late completions, timers and acknowledgements change nothing and send nothing |
| `ReliableSending.ReliableSender.SendMessage` | include/auto_serial_bridge/reliable_sender.hpp:109-123 | `send_impl` does to the fields what the specification says |
| `ReliableSending.ReliableSender.Attempt` | include/auto_serial_bridge/reliable_sender.hpp:125-165 | `attempt_send` likewise: number once, inject, new generation, hand over |
| `ReliableSending.ReliableSender.OnSendCompletion` | include/auto_serial_bridge/reliable_sender.hpp:167-188 | `handle_send_completion` likewise; completions of other attempts are ignored |
| `ReliableSending.ReliableSender.Schedule` | include/auto_serial_bridge/reliable_sender.hpp:190-218 | `schedule_retry` likewise: re-arming replaces the wait |
| `ReliableSending.ReliableSender.OnRetryTimeout` | include/auto_serial_bridge/reliable_sender.hpp:220-246 | `handle_retry_timeout` likewise |
| `ReliableSending.ReliableSender.OnAck` | include/auto_serial_bridge/reliable_sender.hpp:248-269 | `on_ack_received_impl` likewise |
| `ReliableSending.ReliableSender.Clear` | include/auto_serial_bridge/reliable_sender.hpp:271-281 | `clear_all_impl` likewise: every queued entry's timer cancelled, all queues gone |
| `CompletionOutcome.AwaitsIffWritten` | include/auto_serial_bridge/reliable_sender.hpp:167-188 | In every reachable state the front of a queue awaits its acknowledgement if and only if it is not being written and the last completion handled for its current attempt reported success |
| `CompletionOutcome.OnlyWrittenIsAcked` | include/auto_serial_bridge/reliable_sender.hpp:248-269 | An acknowledgement pops the front if it names it by its sequence byte and that last report was a success; any other acknowledgement changes nothing |
| `CompletionOutcome.FailedIsNotAcked` | include/auto_serial_bridge/reliable_sender.hpp:185-187 | After a failed completion of the front's current attempt no acknowledgement, from whenever it comes, removes a message of that ID before a later success |
| `CompletionOutcome.LateReportChangesNothing` | include/auto_serial_bridge/reliable_sender.hpp:167-183 | After a retry, a report on the earlier attempt is ignored |
| `CompletionOutcome.HandsOverIff` | include/auto_serial_bridge/reliable_sender.hpp:109-269 | A frame is handed over exactly for a message of an idle ID, an acknowledgement with another message behind, or the timer of a front that is not being written; it is one frame, the front's; a timer of an earlier message does nothing |
| `RetryAccounting.WarningCount` | include/auto_serial_bridge/reliable_sender.hpp:220-246 | Over any run and for a positive threshold, the warnings about a message are its handled timeouts divided by the threshold |
| `RetryAccounting.NoWarnings` | include/auto_serial_bridge/reliable_sender.hpp:236-244 | A threshold of zero or less never warns |
| `Wire.Pack` | include/auto_serial_bridge/packet_handler.hpp:128-147 | `pack` builds headers, ID, length, data and the checksum of everything from the ID on |
| `Wire.InjectTrailingSeq` | include/auto_serial_bridge/reliable_sender.hpp:97-107 | `inject_trailing_seq` on any byte string, short ones and the wrapping length byte included |
| `Wire.InjectionLaw` | include/auto_serial_bridge/reliable_sender.hpp:97-107 | Injecting into the packed frame of a payload gives the packed frame of payload and sequence byte, of the expected size, for every validated reliable message |
| `Wire.InjectedLengthByte` | include/auto_serial_bridge/reliable_sender.hpp:103 | The length byte is right after injection if and only if the payload was shorter than 255 bytes |
| `Wire.ReliableFrame` | scripts/codegen.py:154-167 | A reliable frame is well formed for its ID and no larger than the largest frame |
| `Wire.FrameDetermines` | include/auto_serial_bridge/packet_handler.hpp:128-147 | Equal frames carry equal IDs and payloads |
| `PacketHandling.FeedDataWithRecovery` | include/auto_serial_bridge/packet_handler.hpp:257-309 | On any ring of at least 8 bytes, for every input and start state: nothing is dropped, neither overflow nor reset is reached, and the packets and the bytes left are those of the pure parser on buffered bytes and input; for smaller rings, exactly when something is dropped |
| `PacketHandling.PacketHandler.ParsePacket` | include/auto_serial_bridge/packet_handler.hpp:175-249 | `parse_packet` on the ring is one step of the pure parser on its contents, with its skipped bytes and counters |
| `PacketHandling.PacketHandler.TryPushByte` | include/auto_serial_bridge/packet_handler.hpp:98-108 | A byte is appended to the contents, or refused if and only if capacity - 1 bytes are held |
| `PacketHandling.PacketHandler.FeedData` | include/auto_serial_bridge/packet_handler.hpp:153-172 | As many bytes as fit are appended; the rest is counted as dropped |
| `PacketHandling.PacketHandler.Reset` | include/auto_serial_bridge/packet_handler.hpp:92-96 | The contents become empty; geometry stays |
| `PacketHandling.PacketHandler.RecordOverflow` | include/auto_serial_bridge/packet_handler.hpp:110-113 | The overflow counter steps modulo 2^32 |
| `PacketHandling.PacketHandler.constructor` | include/auto_serial_bridge/packet_handler.hpp:81-86 | The capacity is the least power of two above the buffer size, so the buffer size is available in full |
| `PacketHandling.PacketHandler.Index` | include/auto_serial_bridge/packet_handler.hpp:98-108 | Masking an index folds it once around the ring |
| `PacketHandling.PacketHandler.DataAvailable` | include/auto_serial_bridge/packet_handler.hpp:251-254 | The masked, wrapped difference of head and tail is the number of bytes held |
| `PacketHandling.PacketHandler.ChecksumFromRing` | include/auto_serial_bridge/packet_handler.hpp:70-78 | The checksum taken across the wrap is the checksum of that part of the contents |
| `PacketHandling.Drain` | include/auto_serial_bridge/packet_handler.hpp:272-284 | The drain loop delivers what the pure parser delivers on the buffered bytes and leaves its residue |
| `PacketHandling.FeedByte` | include/auto_serial_bridge/packet_handler.hpp:267-300 | One byte of the feeding loop, the drain of a full ring included |
| `PacketHandling.CountUpByWraps` | include/auto_serial_bridge/packet_handler.hpp:33-35 | The counters are exact modulo 2^32 |
| `StreamParser.ParseContinues` | include/auto_serial_bridge/packet_handler.hpp:175-249 | Parsing some bytes, then the residue with more bytes, is parsing everything at once |
| `StreamParser.ChunkIndependence` | include/auto_serial_bridge/packet_handler.hpp:257-309 | For every split of a stream into chunks the packets and the residue are the same |
| `StreamParser.SameBytesSamePackets` | include/auto_serial_bridge/packet_handler.hpp:257-309 | Two splits of the same bytes deliver the same packets |
| `StreamParser.Soundness` | include/auto_serial_bridge/packet_handler.hpp:175-249 | Delivered frames are disjoint, in order, and each is a well-formed frame of the stream at its place |
| `StreamParser.Completeness` | include/auto_serial_bridge/packet_handler.hpp:175-249 | A well-formed frame of the stream is delivered unless it starts inside a delivered one or is not complete in front of the residue |
| `StreamParser.AcceptIffFrame` | include/auto_serial_bridge/packet_handler.hpp:183-240 | The head of the buffer is accepted if and only if it is a well-formed frame that fits the ring |
| `StreamParser.HeadDecides` | include/auto_serial_bridge/packet_handler.hpp:183-249 | An announced message is waited for; once complete it is delivered if it is a well-formed frame, and otherwise counted as one checksum error and passed over by one byte; what announces nothing is passed over without an error |
| `StreamParser.RestIsStuck` | include/auto_serial_bridge/packet_handler.hpp:175-249 | The residue gives nothing more without new bytes |
| `StreamParser.ResidueBound` | include/auto_serial_bridge/packet_handler.hpp:192-215 | The residue is at most the largest payload and four bytes |
| `StreamParser.ParsingMakesRoom` | include/auto_serial_bridge/packet_handler.hpp:267-300 | A full ring of at least 8 bytes always makes progress |
| `StreamParser.CapacityIsInvisible` | include/auto_serial_bridge/packet_handler.hpp:202-208 | Two rings that hold the largest frame parse alike |
| `StreamParser.CleanStream` | include/auto_serial_bridge/packet_handler.hpp:175-249 | Frames back to back come out as exactly their packets, with nothing left |
| `StreamParser.OneThenAll` | include/auto_serial_bridge/packet_handler.hpp:175-249 | Parsing packet by packet, as callers do, is parsing all |
| `RingArithmetic.NextPowerOfTwo` | include/auto_serial_bridge/packet_handler.hpp:37-45 | The loop ends with the least power of two not below its argument, for arguments up to 2^63 |
| `RingArithmetic.DoublingLoopEnds` | include/auto_serial_bridge/packet_handler.hpp:37-45 | With 64-bit doubling that wraps to zero the loop ends if and only if the argument is at most 2^63 |
| `RingArithmetic.MaskIsRemainder` | include/auto_serial_bridge/packet_handler.hpp:81-86 | Bitwise and with capacity - 1 is the remainder by a power-of-two capacity |
| `RingArithmetic.MaskedDifference` | include/auto_serial_bridge/packet_handler.hpp:251-254 | Unsigned wrapped subtraction under the mask is the distance around the ring |
| `Checksums.GenerateCrc8Table` | scripts/codegen.py:106-118 | The loop with unmasked shifts fills entry i with eight steps of the 8-bit polynomial 0x31 division from i |
| `Checksums.GenerateCrc8Entry` | scripts/codegen.py:109-116 | One entry: shifting without a mask and masking at the end is the masked division |
| `Checksums.CalculateChecksum` | include/auto_serial_bridge/packet_handler.hpp:115-123 | The loop computes the checksum fold of its bytes |
| `ErrorDetection.CrcByBits` | scripts/codegen.py:106-118 | The table in closed form: the exclusive or of the remainders that the bits of the index select |
| `ErrorDetection.SumIsTotal` | scripts/codegen.py:412-417 | SUM8 is the total of the bytes modulo 256 |
| `ErrorDetection.LookupInjective` | scripts/codegen.py:106-118 | The lookup is a permutation of the byte values |
| `ErrorDetection.CrcEntryParity` | scripts/codegen.py:106-118 | The lookup preserves bit parity |
| `ErrorDetection.OneByteChangeIsDetected` | include/auto_serial_bridge/packet_handler.hpp:48-68 | With SUM8, XOR8 or CRC8 any change confined to one byte of a checked string of any length is detected |
| `ErrorDetection.OddFlipsAreDetected` | scripts/codegen.py:393-431 | With XOR8 or CRC8 any odd number of flipped bits over covered bytes and checksum is detected, for any length |
| `ErrorDetection.UndetectedErrors` | scripts/codegen.py:393-431 | With XOR8 or CRC8 an error pattern passes unnoticed if and only if it would itself verify, whatever it is laid over |
| `ErrorDetection.SumMissesThreeFlips` | scripts/codegen.py:412-417 | SUM8 has no such parity guarantee: three flipped bits that it misses |
| `McuReceiver.StepKeepsInv` | scripts/codegen.py:474-560 | Every byte keeps the running checksum equal to the batch checksum and the counters below the announced length and the buffer |
| `McuReceiver.Run` | scripts/codegen.py:474-560 | Every reachable state of the generated receiver meets that invariant |
| `McuReceiver.ActsOnlyOnFrames` | scripts/codegen.py:511-553 | Whenever a byte makes the receiver act, the stream so far ends with a well-formed frame and the actions are those of that frame |
| `McuReceiver.FrameDecoded` | scripts/codegen.py:474-560 | A frame received while idle is dispatched in full and leaves the receiver idle |
| `McuDecoding.RunDecodes` | scripts/codegen.py:474-560 | For every byte stream from idle, the receiver's actions are those of a reference decoder without states: after a header pair the frame that the next bytes announce, a repeated first header byte and an oversized length byte each taken as a possible new beginning |
| `McuDecoding.StrayHeaderBytes` | scripts/codegen.py:482-489 | Any number of stray first header bytes in front of a frame does not keep it from being dispatched |
| `McuDecoding.LengthBeginsFrame` | scripts/codegen.py:497-503 | An oversized length byte that equals the first header byte begins the next frame, which is dispatched |
| `McuReceiver.StepTowardsIdle` | scripts/codegen.py:474-560 | Each byte free of the first header byte brings the receiver strictly nearer to idle |
| `McuReceiver.Resynchronises` | scripts/codegen.py:474-560 | From any state, as many bytes free of the first header as the largest payload and four lead back to idle, and the next frame is decoded |
| `McuReceiver.Receiver.Feed` | scripts/codegen.py:474-560 | `protocol_fsm_feed` with its static fields and buffer is that step; its re-entry on an oversized length ends |
| `McuReceiver.Receiver.Dispatch` | scripts/codegen.py:515-553 | The per-message switch: sizes, callback, acknowledgement, echo and handshake answer in order |
| `McuReceiver.Receiver.SendAck` | scripts/codegen.py:433-443 | The acknowledgement carries the frame's ID and sequence byte |
| `LinkAgreement.HostToMcu` | scripts/codegen.py:469-562 | Any run of host frames fed to an idle receiver yields exactly the messages in order, one callback each, one acknowledgement with ID and sequence byte for each reliable one |
| `LinkAgreement.McuToHost` | scripts/codegen.py:571-588 | Any run of generated `send_X` frames parses back to the same packets with nothing left, if and only if none has a reliable ID |
| `LinkAgreement.SendFromMcu` | scripts/codegen.py:571-588 | `send_X` fills its buffer with exactly the frame |
| `LinkAgreement.AckComesBack` | scripts/codegen.py:433-443 | A reliable frame's acknowledgement parses at the host to one packet with its ID and sequence byte |
| `LinkAgreement.HeartbeatComesBack` | scripts/codegen.py:533-537 | A heartbeat is echoed with the same count and parses back |
| `Conversation.ProbeAdmits` | src/serial_controller.cpp:287-342 | The answer to a handshake probe is one packet, and brings the link up exactly when hashes agree or a mismatch is ignored |
| `Conversation.EchoEndsTheWait` | src/serial_controller.cpp:508-526 | The echo of a heartbeat, handled as a packet, ends the wait exactly when its count is the last one sent |
| `ControllerDispatch.RunningLinkShowsEverything` | src/serial_controller.cpp:569-604 | When a read ends on a running link that stays up, the topics are shown every packet of buffered bytes and read together, once, in order, with ID and payload, a reliable one without its last byte |
| `ControllerDispatch.WaitingLinkShowsHandshakes` | src/serial_controller.cpp:569-595 | A waiting link starts running exactly when an acceptable handshake stands among those packets, with its heartbeat cleared; until then the topics are shown handshakes only |
| `ControllerDispatch.ChunkIsHeard` | src/serial_controller.cpp:427-435 | For every chunk that leaves the link up, packet by packet: what is shown, admitted and answered is what the pure parse of the stream gives, and its residue stays buffered |
| `ControllerDispatch.RunningHears` | src/serial_controller.cpp:508-526 | Among those packets only an echo of the last count sent changes a running link: it ends the wait |
| `ControllerHeartbeat.WindowOnTheLink` | src/serial_controller.cpp:634-672 | Over any run of the strand with the timer at a fixed interval, nothing else breaking the link and no echo: each of the floor(timeout / interval) ticks posts just the same heartbeat frame; at the next one a strict link is down, its port closed, its connection number raised and false published, and a lenient one posts the next count |
| `ControllerHeartbeat.WindowIsOpen` | src/serial_controller.cpp:634-647 | Within the window the link stays up and each tick posts just that frame, whatever else the strand does |
| `ControllerHeartbeat.AnswerEndsTheWait` | src/serial_controller.cpp:508-526 | A read within the window that brings the echo, on a link that stays up, ends the wait |
| `ControllerHeartbeat.OthersKeepTheBeat` | src/serial_controller.cpp:495-604 | No event but a tick or such a read touches the heartbeat of a running link that stays up |
| `ControllerHeartbeat.FirstTick` | src/serial_controller.cpp:667-672 | A tick of a running link that awaits nothing posts the next count and awaits it from then on, modulo 2^32 |
| `ControllerHeartbeat.WaitingTick` | src/serial_controller.cpp:608-626 | A tick of a waiting link posts the handshake probe with our hash; without a connection nothing |
| `ControllerHeartbeat.ClosingTick` | src/serial_controller.cpp:649-672 | The tick after the window: a strict link is given up, a lenient one goes on with the next count |
| `LinkLoss.LinkGoesDown` | src/serial_controller.cpp:193-237 | A link that is up goes down exactly by: a lost port found by the check, an unanswered heartbeat in strict mode, a failing send, a failed read, an empty read on a closed port, a read or write that cannot be started, a failed write, packets that break it, the destructor. Then the port is closed, the queue empty, the connection number one higher; except within a chunk also nothing buffered, no heartbeat awaited, no handshake done and false published |
| `LinkLoss.LinkComesUp` | src/serial_controller.cpp:245-285 | A link that is down comes up exactly by the connection check on a port that opens and can be read: on a new connection, with one read under way, nothing queued or buffered, running at once only without handshakes, else probing |
| `LinkLoss.CheckFails` | src/serial_controller.cpp:245-285 | When it does not come up, nothing of an earlier connection is left |
| `LinkLoss.ResetReports` | src/serial_controller.cpp:205-214 | A reset reports failure for every queued request with a completion, in the order of the queue, once each |
| `LinkLoss.LostPortFlushes` | src/serial_controller.cpp:839-853 | When a write ends well but the port is gone, that write is reported as a success, everything behind it as failed, in order, and the queue is empty |
| `TransmitOrder.FramesLeaveInOrder` | src/serial_controller.cpp:758-935 | Over every run and on every connection, the frames whose writes have ended are the first of those queued, in order, none twice and none left out; while the port is open the rest stands in the queue |
| `TransmitOrder.ApplyCarries` | src/serial_controller.cpp:833-935 | Each event keeps that order |
| `TransmitOrder.SendIsQueued` | src/serial_controller.cpp:758-812 | Without faults a frame is queued last, and being written, exactly on an open link with room and, before the handshake, for handshake frames only; otherwise nothing is queued and failure is reported at once |
| `ControllerSafety.ExactlyOnce` | src/serial_controller.cpp:758-935 | In every reachable state a request that came with a completion is either queued with the completion never called, or gone with the completion called once; nothing else is ever called |
| `ControllerSafety.SuccessMeansWritten` | src/serial_controller.cpp:887-935 | A completion reports success only when the write of that very request, the front, has just succeeded on the present connection |
| `ControllerSafety.OneWriteAtATime` | include/auto_serial_bridge/serial_controller.hpp:237-245 | The queue never exceeds 1024; of the present connection at most one read and one write are under way, the write being the queue's front; operations are counted exactly over all connections |
| `ControllerSafety.ApplyKeeps` | src/serial_controller.cpp:193-237 | Every event, with any initiation failing, keeps completions, queue and operation count consistent |
| `ControllerSafety.HandleWriteKeeps` | src/serial_controller.cpp:887-935 | The write handler: stale connections ignored, front popped and settled together |
| `ControllerSafety.HandleReceiveKeeps` | src/serial_controller.cpp:437-493 | The read handler, resets in the middle of a chunk included |
| `ControllerSafety.ResetKeeps` | src/serial_controller.cpp:193-237 | A reset settles every queued request and retires every operation of the connection |
| `ControllerSender.NeverForgotten` | include/auto_serial_bridge/reliable_sender.hpp:125-246 | The sender inside the controller: in every reachable state before the destructor, through resets, failed openings, full queues, blocked frames and failed writes, the front of every reliable queue is numbered, and its frame is in the transmit queue with its completion still to be called, or a timer with its sequence byte is armed or has expired |
| `ControllerSender.OpenAlways` | src/serial_controller.cpp:758-935 | The completions the sender waits for are exactly those of the requests the controller has still to settle, one each |
| `ControllerSender.AttemptsAreWritten` | src/serial_controller.cpp:833-935 | Unless the system aborts an operation, an attempt under way means that the transmit queue is being written |
| `SenderRefinement.SenderIsSimulated` | src/serial_controller.cpp:758-935 | Refinement: every state of the sender inside the controller is reached by a run of the stand-alone sender whose completions carry the outcomes that the controller reported, so what holds of all its runs holds inside the controller |
| `SenderRefinement.AwaitingWasWritten` | include/auto_serial_bridge/reliable_sender.hpp:167-188 | A message that awaits its acknowledgement was reported as written in its current attempt |
| `SenderRefinement.AckTakesOff` | src/serial_controller.cpp:553-567 | An acknowledgement packet takes off exactly the message it names, if that one awaits it; other packets do not touch the sender |
| `SenderRefinement.OnlySendsQueue` | include/auto_serial_bridge/serial_controller.hpp:167-172 | A reliable message given to the node is queued last among those of its ID whatever becomes of the link; no other task, timer or write adds or drops one |
| `ControllerSender.HandOverTied` | include/auto_serial_bridge/reliable_sender.hpp:147-164 | Handing a frame over ties its completion to exactly one request, even where it is refused at once |
| `ControllerSender.SettleTied` | include/auto_serial_bridge/reliable_sender.hpp:167-188 | Calling a completion unties it and moves the sender on |
| `ControllerProgress.MovesIffNeverStalls` | src/serial_controller.cpp:356-393 | Throughout a run a usable link is listened to and a queued frame is on its way, if and only if no step is such an abort |
| `ControllerProgress.DeafRun` | src/serial_controller.cpp:449-456 | A run that ends with a usable link that nothing listens to |
| `ControllerProgress.ApplyMoves` | src/serial_controller.cpp:833-935 | A step leaves a usable link without a read, or a queued frame without a write, exactly when the system aborts a read of the present connection or a write with frames behind it |
| `ControllerShutdown.ReleasedOnce` | src/serial_controller.cpp:72-103 | The destructor is released at most once, only after its task, with no operation of any connection under way and no task left; and it is not forgotten |
| `ControllerShutdown.NothingAfterDestroy` | src/serial_controller.cpp:105-117 | From the destructor's task on, whatever happens, no operation starts, nothing is queued or dispatched, and the sender, empty, hands nothing over |
| `ControllerShutdown.AfterwardsKeeps` | src/serial_controller.cpp:395-425 | Each late event only retires an operation or does nothing, and the last one triggers the release |
| `ControllerShutdown.BeforeKeeps` | src/serial_controller.cpp:72-117 | Before the destructor's task no event disturbs the shutdown |
| `HandshakeGate.GateHolds` | src/serial_controller.cpp:774-794 | With the handshake required, on every connection no other frame is queued and no other packet dispatched before a hash was accepted on it; for frames, one read on that very connection |
| `HandshakeGate.ApplyGated` | src/serial_controller.cpp:569-604 | Each event keeps the gate |
| `HandshakeGate.HandlePacketGated` | src/serial_controller.cpp:495-604 | Each packet of a chunk keeps it, also after the link has gone down within the chunk |
| `ReadyTopic.ReadyIffNeverStranded` | src/serial_controller.cpp:152-163 | The published value equals connected-and-running throughout a run if and only if no chunk of the run breaks the link while the full ring is drained, with a handshake that would be accepted in the bytes that follow |
| `ReadyTopic.ChunkSign` | src/serial_controller.cpp:427-493 | For one chunk over its bytes, the room in the ring and the faults: it leaves the link running but not connected exactly when, at some byte, the ring is full, draining it meets a packet whose next frame cannot be sent, and the bytes from there on parse to an acceptable handshake |
| `ReadyTopic.HandlePacketSign` | src/serial_controller.cpp:495-604 | A packet takes a connected link down exactly under the guard of the failing send: an acknowledgement the sender accepts, another message behind it, the frame neither blocked nor refused, and no memory, or no write possible and none under way; on a link that is down only an acceptable handshake changes anything |
| `ReadyTopic.RoomyChunk` | include/auto_serial_bridge/packet_handler.hpp:257-309 | A chunk that fits behind what is buffered never strands the link, whatever its bytes and whatever fails |
| `ReadyTopic.ReadyWithoutFaults` | src/serial_controller.cpp:193-231 | The published value is right in every run in which sending from within a chunk does not fail |
| `ReadyTopic.ReadyInRoomyRing` | src/serial_controller.cpp:193-231 | And in every run, whatever fails, if the ring takes a whole read behind the rest of a frame |
| `ReadyTopic.AlwaysSmall` | include/auto_serial_bridge/packet_handler.hpp:303-306 | Between chunks the ring never holds a whole largest frame |
| `StrandedLink.ReadyAlwaysIffRoomy` | include/auto_serial_bridge/serial_controller.hpp:236 | With handshakes required and a reliable message, the published value is right in every run, whatever fails, if and only if the ring has more than 2048 cells: a configured buffer of at least one read |
| `StrandedLink.StrandedRun` | src/serial_controller.cpp:437-493 | For every smaller ring, a run from the start: connection, handshake, two reliable messages, the first written, then one read that acknowledges it, fills the ring and ends with a handshake, while memory runs out |
| `SerialControl.WordsRoundTrip` | src/serial_controller.cpp:303-312 | Four-byte payloads and 32-bit words stand for each other |
| `SerialControl.SerialController.constructor` | src/serial_controller.cpp:17-70 | The node starts disconnected with false published, its ring large enough for the configured buffer |
| `SerialControl.SerialController.Publish` | src/serial_controller.cpp:152-163 | Only changes are published |
| `SerialControl.SerialController.ResetSerial` | src/serial_controller.cpp:193-237 | `reset_serial` does to the fields, the sender and the ring what the specification says |
| `SerialControl.SerialController.FailQueue` | src/serial_controller.cpp:200-214 | Under shutdown the sender is emptied, then every queued completion is called with failure |
| `SerialControl.SerialController.FlushQueue` | src/serial_controller.cpp:205-214 | Every queued completion is called with failure, front first |
| `SerialControl.SerialController.CheckConnectionTask` | src/serial_controller.cpp:245-285 | `check_connection_impl` likewise, opening failures included |
| `SerialControl.SerialController.TakeHandshake` | src/serial_controller.cpp:287-342 | `process_handshake` likewise: malformed and rejected hashes change nothing |
| `SerialControl.SerialController.BeginReceive` | src/serial_controller.cpp:356-393 | `start_receive` likewise |
| `SerialControl.SerialController.CompleteSerialOp` | src/serial_controller.cpp:395-406 | `complete_serial_op` likewise |
| `SerialControl.SerialController.Notify` | src/serial_controller.cpp:408-425 | `notify_serial_ops_drained` likewise: the callback is posted once |
| `SerialControl.SerialController.Post` | src/serial_controller.cpp:105-117 | `post_serial` refuses once the door is closed |
| `SerialControl.SerialController.OnReadEnd` | src/serial_controller.cpp:437-493 | `handle_receive` likewise, from the bytes of the read |
| `SerialControl.SerialController.IngestReceivedBytes` | include/auto_serial_bridge/packet_handler.hpp:257-309 | The feeding loop over the ring with `handle_packet` as its consumer, which may reset the ring in the middle |
| `SerialControl.SerialController.TakeByte` | include/auto_serial_bridge/packet_handler.hpp:267-300 | One byte of that loop: pushed, after draining a full ring, or after emptying it |
| `SerialControl.SerialController.DrainRing` | include/auto_serial_bridge/packet_handler.hpp:303-306 | The drain loop with that consumer |
| `SerialControl.SerialController.TakePacket` | src/serial_controller.cpp:495-604 | `handle_packet` likewise; what an acknowledgement sends is the sender's own step |
| `SerialControl.SerialController.TakeOver` | include/auto_serial_bridge/reliable_sender.hpp:147-164 | What a step of the sender hands over is sent with a completion for this attempt |
| `SerialControl.SerialController.SendReliableTask` | include/auto_serial_bridge/serial_controller.hpp:167-172 | `reliable_send`'s posted part likewise |
| `SerialControl.SerialController.OnRetryTimeout` | include/auto_serial_bridge/reliable_sender.hpp:220-246 | A retry inside the controller likewise |
| `SerialControl.SerialController.OnHeartbeatTimer` | src/serial_controller.cpp:606-673 | `handle_heartbeat_timer` likewise |
| `SerialControl.SerialController.Queueable` | src/serial_controller.cpp:758-812 | The checks before a frame is queued: connected, open, not blocked by the gate, room in the queue |
| `SerialControl.SerialController.AcceptOrReject` | src/serial_controller.cpp:758-831 | `async_send_impl` likewise, rejection and exceptions included |
| `SerialControl.SerialController.BeginNextWrite` | src/serial_controller.cpp:833-885 | `start_next_write` likewise |
| `SerialControl.SerialController.OnWriteEnd` | src/serial_controller.cpp:887-935 | `handle_write` likewise |
| `SerialControl.SerialController.DestroyTask` | src/serial_controller.cpp:82-100 | The destructor's task likewise |
| `Heartbeat.ClockCountsTicks` | src/serial_controller.cpp:606-673 | With ticks every interval and a timeout not below it, comparing timestamps amounts to counting ticks: the link does what a clock-free link does, for all echoes, across 32-bit wrap |
| `Heartbeat.WindowCloses` | src/serial_controller.cpp:625-660 | An unanswered count is repeated exactly floor(timeout / interval) times; at the next tick a strict link gives up and a lenient one starts the next count |
| `Heartbeat.EchoInTime` | src/serial_controller.cpp:508-526 | A matching echo before that tick ends the round: the next tick starts a new count and never resets |
| `Heartbeat.Unanswered` | src/serial_controller.cpp:634-643 | Within the window, with any other echoes, the same count is sent at each tick |
| `Heartbeat.SilentPeer` | src/serial_controller.cpp:655-672 | A lenient link without any echo sends tick n with count n div (floor(timeout / interval) + 1) modulo 2^32 |
| `ProtocolHash.HashSeesContracts` | scripts/codegen.py:174-200 | The hash inputs of two validated descriptions are equal if and only if headers, checksum, handshake mode and the C types of the built-in messages agree, and every message of either has its like in the other: same ID, direction, reliability and as many fields with the same C types position by position |
| `ProtocolHash.OrderDoesNotMatter` | scripts/codegen.py:174-200 | Writing the messages in any other order leaves the hash input as it is |
| `ProtocolHash.UsableInAnyOrder` | scripts/codegen.py:1167-1432 | Validation accepts every reordering of what it accepts |
| `ProtocolHash.AliasesDoNotMatter` | scripts/codegen.py:130-132 | Renaming type aliases that resolve to the same C types leaves the hash input as it is |
| `ProtocolHash.SpellingDoesNotMatter` | scripts/codegen.py:193-198 | Nor does the hash input depend on the case of the checksum's name, or on whether the defaults of checksum and handshake are written down |
| `ProtocolHash.EqualHashEqualLink` | scripts/codegen.py:960-979 | Equal hash inputs give the same link configuration: headers, checksum, and for every ID the same expected size and reliability |
| `ProtocolHash.ValidIffBuiltInsKept` | scripts/codegen.py:1407-1425 | A validated description yields a configuration this model is about if and only if its alias table keeps the sizes of the built-in messages' types; the buffer always holds the largest frame |
| `ProtocolHash.LookupsAgree` | scripts/codegen.py:960-979 | The generated `expected_payload_size` and `is_reliable_packet` are the link's sizes and reliable IDs, zero and false for unknown IDs |
| `ProtocolHash.MergesIffNoNullId` | scripts/codegen.py:135-142 | Of what validation accepts, merging succeeds if and only if no message has a null ID |
| `ProtocolHash.TrySortIs` | scripts/codegen.py:142 | Sorting two or more messages fails exactly when one of them has an ID that does not compare |
| `ProtocolHash.NullIdIsAccepted` | scripts/codegen.py:1298-1311 | Validation accepts a description with a null ID, whose merging fails |
| `ProtocolHash.ShrunkBuiltInsAreAccepted` | scripts/codegen.py:1372-1410 | Validation accepts an alias table with which no valid link results |
| `ProtocolHash.UsableRing` | include/auto_serial_bridge/packet_handler.hpp:81-86 | Every validated buffer makes a ring of at least eight cells |
| `ProtocolHash.SortAscends` | scripts/codegen.py:135-142 | Merging yields the messages in strictly ascending ID order, none lost or added |
| `ProtocolHash.AdmittedMessage` | scripts/codegen.py:1278-1390 | An accepted message has 1 to 255 bytes counted by its C types and the sequence byte, an ID below the built-in ones or none, and is sent by the host if it is reliable |
| `ProtocolHash.SizeByTypes` | scripts/codegen.py:154-167 | A payload's size is one byte for each uint8_t, two for each uint16_t and four for each of the others |
| `ProtocolHash.TableSizes` | scripts/codegen.py:154-167 | Every message of a validated table has 1 to 255 bytes on the wire, a reliable one at least 2, and fits the buffer |
| `Codegen.Validate` | scripts/codegen.py:1167-1432 | No error is reported if and only if the description is acceptable: settings, IDs, directions, reliability, types, sizes, buffer |
| `Codegen.ValidateIds` | scripts/codegen.py:1298-1311 | With the table of IDs seen so far: accepted if and only if every ID is in range, unreserved and used once; duplicates are reported truthfully |
| `Codegen.ValidateSettings` | scripts/codegen.py:1211-1258 | Accepted if and only if checksum, headers, flags and numbers are well formed and the heartbeat timeout is not below the interval |
| `Codegen.ValidateMessage` | scripts/codegen.py:1278-1296 | Accepted if and only if direction, reliability and fields are well formed; reliable messages go one way only |
| `Codegen.LargestFrame` | scripts/codegen.py:1412-1425 | The least buffer size that holds every message's frame |
| `Codegen.MeasurePayload` | scripts/codegen.py:154-167 | The loop over the fields computes the wire payload size |

## Left out

- Corruption that passes the checksum in the delivery theorem: a frame in a channel is delivered
  whole or lost. What the checksums detect is proved separately.
- Byte-level interleaving of reliable and other traffic in the delivery theorem: its channels carry
  the frames of reliable messages and their acknowledgements. The transmit queue, its rejections and
  resets count as loss in the forward channel.
- `clear_all` in the delivery theorem: it runs only while the controller shuts down. What it does to
  the sender is modelled.
- PacketHandling.FeedDataWithRecovery: its consumer leaves the handler alone; the same loop with the
  consumer that resets it is `SerialControl.SerialController.IngestReceivedBytes`.
- Codegen.Validate: names, topics, message packages, ROS paths and debug modes are not checked, and
  the order of the errors is not modelled.
- Codegen.ValidateMessage: the same for one message.
- The delivery theorem's channels and the controller's transmit queue in one state: the theorem's
  forward channel may lose any frame, which covers refusals and resets, and inside the controller
  the sender refines the stand-alone one (`SenderRefinement`).
- 64-bit wrap of connection generations and of the operation count, which would take 2^64
  reconnections or operations. The send generation's wrap is modelled.
- The int counter of retries when the threshold is not positive: it would overflow after 2^31
  timeouts of one message; the model counts on.
- Another thread between the check of the shutdown flag in `post_serial` and its post: one atomic
  step here. A destructor that runs on the strand itself and therefore does not wait.
- ROS publishers, subscriptions, parameters, logging and the formatting of log lines; payloads are
  byte sequences, so floats and conversions to ROS messages do not appear. Words are little-endian,
  as the documentation requires of both ends.
- Real asio, serial ports and timers: nondeterministic events.
- MD5 and YAML: the hash stops at the value that is serialised and digested. Upper-casing covers
  ASCII letters.
- Descriptions whose sections are not mappings or lists.
- The text of generated C, C++ and Markdown, USER CODE blocks and file writing: the model states
  what the generated program does.
- The web page, udev rules and build matrix.
