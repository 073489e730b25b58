# Governor: a verified model of the controller core

Governor is a small fault-tolerant controller: a node regulates a plant, talks to a ground station over a lossy serial
link, and keeps a safety state machine between its controller and its actuator. The parts that carry its guarantees are
plain logic with time passed in as an argument. This project models those parts in Dafny and proves what they promise,
for every input, every interleaving and every run.

| part | modules |
|---|---|
| checksum: the register as the code clocks it, and as linear algebra over bits | `Crc16`, `CrcDetection`, `OctetBursts` |
| wire format, a whole-stream parser as reference, resynchronisation, damaged frames | `Frame`, `Framing`, `Resync`, `Occurrence`, `ErrorRejection`, `OctetDamage` |
| encoder and the two byte-at-a-time decoders, each refining the parser | `Encoder`, `Decoder`, `HostDecoder` |
| stop-and-wait link: the objects, the link as a transition system, delivery guarantees, timing | `Reliable`, `Arq`, `ExactlyOnce`, `Repetition`, `Chains`, `Retransmission` |
| the ground station's end of the link, which queues, and its refinement to that system | `HostEndpoint`, `HostTiming`, `HostLink` |
| safety state machine, node coordinator, their runs | `Safety`, `Transitions`, `Node`, `NodeRuns`, `NodeSafety`, `NodePosts`, `NodeOutcomes` |
| PID controller and plant, closed loop through the safety clamp | `Control`, `ClosedLoop` |
| two-slot persistent configuration under torn writes | `Config`, `ConfigRuns` |
| single-producer single-consumer telemetry ring | `Ring`, `RingInterleaving` |
| sensor driver against its poll history | `Sensor` |

Where the program changes an object in place there is a class whose methods are proved equal to a function on values; the
lemmas over runs speak about those functions. `dafny verify dfyconfig.toml` checks everything.

## How the model stands for the program

- Octets are `bv8`, the checksum register `bv16`, stored words `bv32`. Millisecond ticks and 32-bit counters are integers
  below 2^32 with wrapping addition and subtraction written out. The ground station's clock and counters are unbounded,
  as Python's are, and its checksum loop, which masks to 16 bits, is the same function as the node's.
- The wire and deliver callbacks append to sequences. A channel is a FIFO that may lose any packet and repeat any packet
  in place; an arriving packet passes through the frame parser. Packets, deliveries and accepted messages carry an index
  that no operation looks at; `HostLink` is free of it. One operation of the link runs to completion before the next
  starts, and sender and receiver start together: neither reboots alone.
- The link accepts the four sequenced types DATA, CMD, HEARTBEAT and CFG_WRITE (section 5 of the protocol document). `Nudge` is the
  ground station's early retransmission on a NAK and `Reject` its spending a number on an oversized message; the node has no such
  steps.
- Fault words are sets of named flags. Node calls are atomic, as the node's lock makes them (src/main.c:103-156). An operation
  on the node is a report about sensor, link or timing, an external event, a passed self-test or a control tick; watchdog and
  internal-violation events may come at any moment. Reports carry a nonzero time.
- Floating point is `real`, with the truncation to an integer at the safety clamp kept.
- A configuration write lands, is cut after any number of octets, or is refused. Stored words are little endian.
- Each access of the ring's producer or consumer to a shared index or slot is one step, in any interleaving, in sequentially
  consistent order; a slot being copied is marked as such until the copy is complete.
- Null-pointer guards are omitted.

## Where code and documentation differ

The model follows the code. Where a difference is one of behaviour it is proved.

- Section 4 of the protocol document promises delivery of a frame after garbage. A frame following arbitrary octets is delivered, whatever
  frame it is, exactly when the garbage leaves the decoder between frames (`Resync.GarbageThenFrame`); 71 octets other than SOF
  always do, 70 need not.
- tests/proto/test_proto.c:191 calls it universal that no flipped bit leads to a delivery. That is so in TYPE, SEQ, PAYLOAD and
  CRC. A damaged VER makes the decoder scan the payload, a damaged LEN makes it look for the checksum elsewhere; both can deliver a
  frame (`ErrorRejection.VersionFlipDelivers`, `ErrorRejection.LengthFlipDelivers`). `OctetDamage.OneOctetDamaged` says exactly when.
- docs/SAFETY_SM.md:23 and docs/SAFETY_SM.md:58-59 call SAFE_STOP and FAULT_HALT latching and FAULT_HALT terminal. In the
  code a watchdog event leaves both, for INIT, and keeps all earlier fault bits (`NodeSafety.LatchExits`,
  `NodeSafety.WatchdogKeepsFaults`).
- docs/SAFETY_SM.md:45 lets an operator clear SAFE_STOP only once the cause reads clear, and docs/SAFETY_SM.md:50-53 treats some events
  without a row as internal violations. The code clears on the event alone (`Transitions.Destinations`) and counts every event without a
  row, whatever it is (`Transitions.UnexpectedIsCounted`).
- The dwell's start time doubles as "not running" when 0, so a cause cleared at time 0 starts no dwell
  (`NodeSafety.DwellNeedsNonzeroTime`). When the millisecond tick wraps, the machine sees time run backwards and halts
  (`NodeSafety.BackwardTimeHalts`).
- docs/DESIGN.md:126-127 says a torn configuration write never corrupts. That holds where the checksum rejects the mixed slot:
  always for cuts at or behind the checksum field and for cuts that change at most two neighbouring octets. Otherwise it can fail:
  from every empty store, two landed saves and a third one cut behind its setpoint can make the next load return the new setpoint
  with the gains of two saves ago (`ConfigRuns.TornReload`). `ConfigRuns.EarlyTearExactly` is the exact condition.
- Section 5 of the protocol document says the link does not silently drop. After 255 or more messages abandoned in a row the next can be
  acknowledged without having been delivered (`ExactlyOnce.WrapHazard`); fewer never suffice (`ExactlyOnce.AckedExactlyOnce`).
- host/governor_gs/protocol.py:41 speaks of a frame of 71 octets; its own constant, like the node's, is 72.
- host/governor_gs/protocol.py:360-369 takes a message off the queue and advances the sequence number before the encoder rejects
  an oversized payload. After 255 such messages in a row the node takes the next good one for a repetition: it is acknowledged
  and lost without a link fault (`HostLink.OversizedHazard`). Without link faults a message is lost in this way exactly if it is a
  multiple of 256 places behind the good one before it (`HostLink.FaultFreePrefix`, `HostLink.FaultFreeLossless`).
- The node treats a NAK as data (src/main.c:202-211): it delivers and acknowledges it and forgets the last sequence number, so a
  message repeated after a NAK is delivered twice (`HostEndpoint.NakRedelivers`). The ground station does not
  (host/governor_gs/protocol.py:417-424); the two ends agree exactly while no NAK and no empty ACK arrives.
- A sensor retry limit of 255 never ends against a device that always NAKs, because the retry counter is 8 bits wide
  (`Sensor.RetryTerminates`).

## Model

| member | source | states |
|---|---|---|
| Crc16.Crc16Ccitt | lib/proto/crc16.c:10-28 | The nested loops compute the register's function `Crc`; the ground station's loop (host/governor_gs/protocol.py:72-95) is the same function |
| Crc16.CrcConcat | lib/proto/frame.c:93-96 | A checksum may be fed piece by piece: the register after s then t is the one after s+t |
| Resync.CheckValue | tests/proto/test_proto.c:44-50 | The check value of CRC-16/CCITT-FALSE, 0x29B1 for the digits 1 to 9 |
| CrcDetection.CrcLinear | lib/proto/crc16.c:10-28 | The checksum is linear over bits in seed and data jointly |
| CrcDetection.SeedInjective | lib/proto/crc16.c:10-28 | For fixed data it is a bijection of its seed |
| CrcDetection.CrcIsFeed | lib/proto/crc16.c:16-24 | The octet-wise code is a bit-serial division, most significant bit first |
| CrcDetection.CodewordZero | lib/proto/frame.c:99-111 | Appending the right checksum, and only that, drives the register to zero |
| CrcDetection.ErrorSyndrome | lib/proto/frame.c:99-111 | What the receiver computes for a damaged codeword depends on the error alone |
| CrcDetection.NoShortPeriod | lib/proto/crc16.c:10-28 | Two bits at most 576 bits apart, a whole frame, never cancel |
| CrcDetection.DetectableSyndrome | lib/proto/crc16.c:10-28 | Every burst of at most 16 bits, every odd number of flips and every double flip within a frame has a nonzero syndrome |
| Encoder.FrameEncode | lib/proto/frame.c:30-67 | The buffer gets exactly the frame's image, or stays untouched and 0 is returned, when payload or buffer size forbid it |
| Frame.ParseConcat | lib/proto/frame.c:113-190 | Reading a stream in chunks, cut anywhere, equals reading it whole |
| Decoder.Decoder.Push | lib/proto/frame.c:113-190 | After every octet, deliveries, counters and pending fields are those of the whole-stream parser on everything pushed so far |
| Decoder.Decoder.FinishFrame | lib/proto/frame.c:99-111 | Checksum, type check, delivery and counters at the end of a frame, then hunting again |
| Decoder.HeaderHolds | lib/proto/frame.c:138-166 | After each header octet the fields again hold exactly the octets waiting, or the length error is counted |
| Decoder.PayloadHolds | lib/proto/frame.c:168-175 | The payload index stays inside the 64-octet buffer, and the buffer holds the payload received so far |
| Decoder.ChecksumHolds | lib/proto/frame.c:177-183 | After the second checksum octet the outcome is that of judging the whole image |
| HostDecoder.HostDecoder.Push | host/governor_gs/protocol.py:198-250 | The ground station's decoder equals the same parser after every octet, version errors included |
| HostDecoder.FinishJudges | host/governor_gs/protocol.py:252-278 | The checksum recomputed from the buffered fields judges as the one over the octets received |
| HostDecoder.DecodeBoth | host/governor_gs/protocol.py:198-278 | On every stream both decoders deliver the same frames and count the same checksum, length and type errors (the node's modulo 2^32) |
| Framing.RoundTrip | lib/proto/frame.c:30-190 | Any list of encoded frames decodes to exactly that list, with no error and nothing pending |
| Framing.ParseEncode | lib/proto/frame.c:30-67 | A frame at the start of any stream is read as itself, or counted as unknown, and reading goes on right behind it |
| Framing.JudgedGood | lib/proto/frame.c:99-111 | An image judged good is the encoding of the frame delivered |
| Framing.DeliveriesAreOnTheWire | lib/proto/frame.c:99-190 | Deliveries are encodings that occur disjointly and in order in the stream: no valid frame, no delivery |
| Framing.DeliveryEndsFrame | lib/proto/frame.c:99-111 | When an octet causes a delivery, the last 8+len octets pushed are that frame's encoding |
| Resync.SofAbsorbed | lib/proto/frame.c:120-136 | Extra leading SOFs change nothing |
| Resync.LengthRejected | lib/proto/frame.c:155-158 | A LEN out of range costs the header and one length error, and reading goes on right behind it |
| Resync.Resynchronises | lib/proto/frame.c:119-183 | From any state 71 octets other than SOF lead back to hunting |
| Resync.ResynchronisesAndDelivers | lib/proto/frame.c:119-183 | From then on every frame is delivered |
| Resync.SeventyIsNotEnough | lib/proto/frame.c:168-183 | The bound of 71 is tight |
| Resync.GarbageThenFrame | lib/proto/frame.c:113-190 | Garbage then frame delivers every frame if and only if the garbage leaves the decoder between frames |
| Occurrence.DeliversIfHolds | lib/proto/frame.c:113-190 | A stream delivers something iff a known-type frame's encoding stands in it at an offset where the decoder is between frames |
| ErrorRejection.DamagedFrame | lib/proto/frame.c:99-111 | A frame damaged outside SOF, VER and LEN is consumed whole; it is a checksum error iff the error's syndrome is not zero |
| ErrorRejection.DetectableIsRejected | lib/proto/frame.c:99-111 | After anything that leaves the decoder between frames, and before anything, a detectable error there costs exactly that frame and one checksum error |
| ErrorRejection.VersionDamageRescans | lib/proto/frame.c:126-136 | A damaged VER drops two octets and everything behind is read afresh |
| ErrorRejection.VersionFlipDelivers | tests/proto/test_proto.c:191 | Counterexample family: one flipped VER bit delivers a frame embedded in the payload |
| ErrorRejection.LengthFlipDelivers | tests/proto/test_proto.c:191 | Counterexample family: one flipped LEN bit delivers a shorter frame |
| OctetDamage.OneOctetDamaged | tests/proto/test_proto.c:163-199 | For every frame, position behind SOF and wrong octet: nothing is delivered iff the damage is outside VER and LEN, or the octets then scanned hold no frame and no shorter frame passes its checksum |
| OctetDamage.HarmlessWithoutSof | tests/proto/test_proto.c:163-199 | With no further SOF in the frame only a LEN reduced in range can lead to a delivery |
| Reliable.GovTx.Send | lib/proto/reliable.c:25-52 | Busy and oversized sends change nothing; an accepted one is emitted at once under the next sequence number |
| Reliable.GovTx.Poll | lib/proto/reliable.c:65-89 | On a timeout the identical octets go out, until three retries are spent and the link faults |
| Reliable.GovTx.OnAck | lib/proto/reliable.c:54-63 | Only the outstanding sequence number's ACK idles the sender |
| Reliable.GovTx.ClearFault | lib/proto/reliable.c:91-99 | Only a faulted sender is released |
| Reliable.GovRx.OnFrame | lib/proto/reliable.c:129-153 | Every frame is acknowledged; only one not numbered like the last is delivered |
| Arq.ApplyInv | lib/proto/reliable.c:25-153 | Every step of the link keeps sequence numbers, both channels' joint order, their contents and the deliveries consistent |
| ExactlyOnce.AtMostOnce | lib/proto/reliable.c:129-153 | In every run, link faults and sequence wrap included, deliveries are a strictly increasing subsequence of the accepted messages, contents unchanged |
| ExactlyOnce.AckIsGenuine | lib/proto/reliable.c:54-63 | Short of 255 given up in a row an ACK that fits is the outstanding message's own |
| ExactlyOnce.DuplicateIsGenuine | lib/proto/reliable.c:138-143 | Short of that, what the receiver takes for a repetition is one |
| ExactlyOnce.AckedExactlyOnce | lib/proto/reliable.c:25-153 | Short of that, every acknowledged message has been delivered exactly once |
| ExactlyOnce.FaultFreeRun | lib/proto/reliable.c:25-153 | With nothing abandoned the deliveries are all accepted messages, or all but the outstanding one |
| ExactlyOnce.WrapHazard | lib/proto/reliable.c:37-51 | For every number of messages abandoned in a row from 255 on, a reachable state has the next acknowledged and never delivered |
| Retransmission.ElapsedIsReal | lib/proto/reliable.c:71-74 | Wrapped subtraction never overstates the true time elapsed |
| Retransmission.EmissionsPaced | lib/proto/reliable.c:65-89 | Each message goes out at most four times, unchanged, at least 100 ms apart in true time |
| Retransmission.FaultOnlyAfterExhaustion | lib/proto/reliable.c:70-88 | A link fault follows all four emissions, at least 400 ms after the first |
| Retransmission.FourthTimeoutFaults | lib/proto/reliable.c:75-88 | Of the polls that find the timeout elapsed, exactly the fourth raises the fault |
| Retransmission.PollDecides | lib/proto/reliable.c:65-89 | A poll does nothing within 100 ms of the latest emission in true time modulo 2^32, then repeats the same octets three times, then faults |
| Reliable.SendRefused | lib/proto/reliable.c:25-52 | Exactly when a send is refused, and that it then changes nothing |
| Reliable.FaultLatches | lib/proto/reliable.c:54-99 | A link fault outlasts acknowledgements, polls and sends until it is cleared |
| HostEndpoint.Endpoint.Send | host/governor_gs/protocol.py:342-358 | Sequenced types are queued and pumped, the others sent at once; errors for oversized payloads |
| HostEndpoint.Endpoint.PumpQueue | host/governor_gs/protocol.py:360-369 | The oldest queued message goes out when the link is free; fails exactly when it does not fit a frame |
| HostEndpoint.Endpoint.ServiceTimer | host/governor_gs/protocol.py:371-394 | Retransmit, or drop and report the dropped number |
| HostEndpoint.Endpoint.OnFrame | host/governor_gs/protocol.py:409-435 | ACK releases and pumps, NAK retransmits, the rest is acknowledged and delivered unless a repetition |
| HostEndpoint.ReceiversAgree | host/governor_gs/protocol.py:409-435 | The ground station and the node deliver and acknowledge the same frames and keep matching states iff no NAK and no empty ACK arrives |
| HostEndpoint.RepetitionsCounted | host/governor_gs/protocol.py:426-435 | At either end every acknowledgement is of a delivery or of a counted repetition |
| HostEndpoint.NakRedelivers | src/main.c:202-211 | A NAK makes the node deliver the NAK, and again the message repeated after it, exactly if the message's number is not 0 |
| HostTiming.TickDecides | host/governor_gs/protocol.py:371-394 | In every run the timer does nothing within 100 ms of the latest emission, then repeats the same octets, and after three times drops the frame with a fault |
| HostTiming.TimerRearmed | host/governor_gs/protocol.py:371-424 | After any emission, first, by timeout or by NAK, the timer is quiet for 100 ms |
| HostTiming.EmissionsPaced | host/governor_gs/protocol.py:371-424 | Emissions of one frame are the same octets, at most three by timeout, 100 ms apart for each timeout between them |
| HostTiming.FaultsEarned | host/governor_gs/protocol.py:387-394 | Each link fault is for a frame that timed out three times before and first went out at least 400 ms earlier |
| HostTiming.NakDecides | host/governor_gs/protocol.py:417-424 | Only a NAK naming the outstanding frame repeats it, at once, and it costs no retry |
| HostTiming.SubmitDecides | host/governor_gs/protocol.py:342-369 | A submitted message goes out at once if nothing is ahead of it, else queues |
| HostTiming.AckDecides | host/governor_gs/protocol.py:411-416 | Only the outstanding frame's ACK releases the next queued message, which goes out at once if it fits |
| HostTiming.RetransmissionsCounted | host/governor_gs/protocol.py:371-424 | Every emission but a frame's first is counted as a retransmission |
| HostLink.StepMatched | host/governor_gs/protocol.py:342-424 | Every step of the ground station's link, oversized messages included, is matched by at most two steps of the link of module Arq, and the queue conserves messages |
| HostLink.DeliversInOrder | host/governor_gs/protocol.py:300-318 | The node is handed submitted messages only, in order, each at most once, whatever their length |
| HostLink.NoSilentLoss | host/governor_gs/protocol.py:387-394 | Unless 255 in a row are oversized or fell to link faults: each message not in transit is delivered, is one of those a link fault was raised for, or is oversized |
| HostLink.FaultFreePrefix | host/governor_gs/protocol.py:300-318 | In every run without a link fault the node is handed exactly the kept messages in order, up to the outstanding one: those that fit a frame and are not a multiple of 256 places behind the fitting one before |
| HostLink.FaultFreeLossless | host/governor_gs/protocol.py:300-318 | Without a link fault nothing that fits a frame is lost iff no two such messages in succession are a multiple of 256 places apart; fewer than 255 oversized in a row suffice |
| Chains.DeliveredExactly | lib/proto/reliable.c:129-153 | In a steady state with nothing abandoned a settled message is delivered iff it is kept |
| Chains.SteadyStep | lib/proto/reliable.c:25-153 | Every step of the link that abandons nothing keeps the link steady: acknowledged messages continue the chain of a delivered one, deliveries begin chains |
| Repetition.NothingLost | lib/proto/reliable.c:138-143 | Keeping drops no fitting message iff none repeats the number of the fitting one before |
| HostLink.OversizedSkipsNumber | host/governor_gs/protocol.py:360-369 | Any number of oversized messages leaves no trace but the sequence number, advanced by that many modulo 256 |
| HostLink.OversizedHazard | host/governor_gs/protocol.py:360-369 | After 255 oversized messages, or 256 more any number of times, some run has the next good one acknowledged and never delivered, with no link fault |
| Safety.SafetySm.Handle | lib/safety/safety.c:108-252 | One event: guards, transition table and timers, as the function `Step` |
| Safety.SafetySm.ServiceTimers | lib/safety/safety.c:80-106 | The dwell and bring-up timers alone |
| Safety.SafetySm.ClampOutput | lib/safety/safety.c:262-284 | The clamp equals its function |
| Safety.ClampBounds | lib/safety/safety.c:262-284 | The whole command in RUN; in DEGRADED half of it, rounded towards zero; zero elsewhere |
| Transitions.Destinations | lib/safety/safety.c:108-252 | For every state, event and time, exactly which lead to each state, timers included |
| Transitions.OperatorStopLatches | lib/safety/safety.c:135-141 | An operator stop in INIT, RUN or DEGRADED latches SAFE_STOP with its flag |
| Transitions.FlagsRaised | lib/safety/safety.c:108-252 | After a step a flag shows iff the step raised it or it stood and was not cleared, flag by flag |
| Transitions.Stamps | lib/safety/safety.c:20-29 | State entry time, bring-up time, transition count and sticky flags after every step |
| Transitions.DwellStamp | lib/safety/safety.c:189-207 | The dwell starts with a clearing report, keeps its first time and is cancelled by any fault report |
| Transitions.UnexpectedIsCounted | lib/safety/safety.c:72-76 | An event the state has no use for is counted and otherwise does what a tick would; no other is counted |
| Node.GovNode.Note | app/node_core.c:83-108 | Routing of one cause's report to fault, second-fault and cleared events |
| Node.GovNode.NoteSensorHealth | app/node_core.c:110-128 | Driver bits are merged while faulty and dropped on recovery only while actuating |
| Node.GovNode.Post | app/node_core.c:185-192 | External event, then the shadow is resynchronised |
| Node.GovNode.Control | app/node_core.c:154-183 | Controller, divergence report or tick, clamp, plant, in that order |
| NodeOutcomes.ControlApplies | app/node_core.c:154-183 | The state after the step decides what is applied: the command without its fraction, half of it, or 0; it is recorded with time and measurement, and drives the plant |
| NodeOutcomes.SensorBits | app/node_core.c:110-128 | A faulty report adds its bits, a healthy one clears them only while actuating, a bring-up starts without |
| NodeOutcomes.LatchedShowsCause | app/node_core.c:119-126 | In every run a latched node clears no flag and no driver bit before a restart |
| NodeOutcomes.HealthySilent | app/node_core.c:98-104 | A healthy report reaches the machine only when it ends the last active cause |
| NodeOutcomes.OperatorStopStops | docs/SAFETY_SM.md:44 | At any time an operator stop leaves the node latched, from an operating state in SAFE_STOP with its flag |
| NodeOutcomes.OperatorStopHolds | docs/SAFETY_SM.md:44 | After it every control step of every run applies 0 until a restart and then a passed self-test |
| NodeOutcomes.WatchdogRemembered | lib/safety/safety.c:54-70 | In every run the watchdog flag shows iff it was carried over a reset or a watchdog event came |
| NodeRuns.ApplyInv | app/node_core.c:65-192 | Every operation keeps timers, flags and the shadow of causes coherent with the machine |
| NodeSafety.ReachableStates | CHANGELOG.md:28-37 | In every reachable state: shadow and machine agree, each fault state shows one of its flags, and no dwell is overrun |
| NodePosts.DegradedIsBounded | lib/safety/safety.c:89-102 | With control ticks or external events at most P ms apart, a DEGRADED episode is over less than 5000 + P ms after it began |
| NodePosts.LogReplays | app/node_core.c:65-192 | Replaying the posted events, each seen in the state it records, gives the safety machine after the run |
| NodeSafety.NoFaultSwallowed | CHANGELOG.md:28-37 | An unhealthy report while actuating always ends outside RUN with that cause's flag, or latched as escalated |
| NodePosts.NoSecondFaultInRun | app/node_core.c:83-108 | In the log of everything posted in a run, which alone makes the machine what it is, no second fault finds it in RUN or INIT |
| NodeSafety.LatchExits | lib/safety/safety.c:222-242 | Exactly which events leave SAFE_STOP and FAULT_HALT |
| NodeSafety.WatchdogKeepsFaults | lib/safety/safety.c:126-134 | A watchdog event restarts bring-up with all earlier bits still set |
| NodeSafety.LatchedUntilReleased | docs/SAFETY_SM.md:58-59 | After latching, actuation needs a restart event and then a passed self-test, in that order |
| NodeSafety.LatchedOutputIsZero | docs/SAFETY_SM.md:56-57 | Until then every control step applies 0 |
| NodeSafety.RecoverySound | lib/safety/safety.c:89-102 | DEGRADED to RUN at t: no unhealthy report since t-500 ms, no cause active, only sticky flags left |
| NodeSafety.RecoveryComplete | lib/safety/safety.c:89-102 | If the last cause has cleared at t1 and a tick comes from t1+500 on, within the 5000 ms episode, the node is in RUN with only sticky flags |
| NodeSafety.LastCauseStartsDwell | app/node_core.c:98-104 | The healthy report of the only active cause starts the dwell at its own time |
| NodeSafety.DwellNeedsNonzeroTime | lib/safety/safety.c:191-195 | A clearing report starts a dwell iff its time is not 0 |
| NodeSafety.BackwardTimeHalts | lib/safety/safety.c:115-118 | A step at an earlier time halts the machine; otherwise only an internal violation does |
| Control.GovPid.Step | lib/control/pid.c:43-113 | One controller step equals its function, integrator, saturation and divergence included |
| Control.PidBounds | lib/control/pid.c:72-107 | Output and integrator stay within their limits; in band there is no divergence |
| Control.PidLaw | lib/control/pid.c:49-91 | The command is kp times the error plus the integrator minus kd times the measurement's slope, cut off at the limits; saturated says whether |
| Control.IntegratorLaw | lib/control/pid.c:72-88 | The integrator advances by ki times error times time within its limits, or is held when that pushes the command past a limit |
| Control.PushesTowards | lib/control/pid.c:43-113 | From rest the node's controller pushes exactly towards a higher setpoint, by an explicit amount |
| Control.NoWindup | lib/control/pid.c:77-88 | While the output saturates against the error the integrator is held |
| Control.GovPlant.Step | lib/control/plant.c:20-36 | One plant step equals its function |
| Control.PlantTenth | lib/control/plant.c:30-34 | At the control period the undisturbed plant moves a tenth of the way to its input |
| Control.PlantBlend | lib/control/plant.c:20-36 | The plant closes the share dt/tau of its gap to gain times input, never overshooting while that is at most 1; the disturbance adds |
| Control.PlantHolds | lib/control/plant.c:24-34 | With a time constant that is not positive it holds |
| ClosedLoop.ClosedLoopBounds | app/node_core.c:154-183 | Fed back from the plant, every run keeps plant, output and integrator in range and never diverges |
| ClosedLoop.LatchedDecay | app/node_core.c:154-183 | While latched, n control ticks scale the plant's output by 0.9^n |
| ClosedLoop.DivergesAtTwenty | lib/control/pid.c:99-107 | Divergence is reported exactly from the 20th consecutive out-of-band tick on |
| ClosedLoop.TwentiethTickStops | app/node_core.c:154-183 | That tick latches SAFE_STOP and itself applies 0; an earlier one stops the node exactly for a DEGRADED episode of 5000 ms, and leaves the divergence flag alone unless a recovery clears it |
| Config.ImageReadsBack | lib/config/config.c:22-38 | A stored image is valid and carries its sequence number and configuration |
| Config.ImageLayout | lib/config/config.h:38-48 | Every field of a stored slot, octet by octet, and the checksum behind them |
| Config.LoadFinds | lib/config/config.c:58-99 | A load returns a usable slot, not the older of two, the defaults only if there is none, and reports a recovery exactly when the other slot was written but is not usable |
| Config.NewerAhead | lib/config/config.c:53-56 | A sequence number is newer iff it is 1 to 2^31 - 1 steps ahead |
| Config.ConfigCtx.LoadBest | lib/config/config.c:58-99 | Picks the newest valid slot, else defaults |
| Config.ConfigCtx.SaveNew | lib/config/config.c:101-131 | Writes the slot that is not active; only a successful write moves the context |
| ConfigRuns.AtomicRegister | docs/DESIGN.md:124-127 | From an empty store, if mixed slots are rejected, every save and reboot is a step of one register: last committed or attempted since; a refused save does nothing |
| ConfigRuns.SlotsAreNeighbours | lib/config/config.c:53-56 | After any number of saves, wraps included, two valid slots differ by exactly one |
| ConfigRuns.SaveSpares | lib/config/config.c:107-130 | A save never touches the active slot; once landed, reload finds it |
| ConfigRuns.SaveBeforeLoadOverwrites | lib/config/config.c:101-131 | Saving without loading first starts over in slot 1 whatever was stored |
| ConfigRuns.LateTearIsSafe | lib/config/config.c:29-38 | A cut at or behind the checksum field leaves the new contents or an invalid slot |
| ConfigRuns.ShortTearIsSafe | lib/config/config.c:29-38 | A cut over a valid slot that changed at most two neighbouring octets leaves it invalid or unchanged |
| ConfigRuns.EarlyTearExactly | lib/config/config.c:22-38 | A cut before the checksum field over a valid slot leaves a valid slot iff the change has syndrome 0 |
| ConfigRuns.TornMixture | docs/DESIGN.md:126-127 | For every stored configuration and every other there is a new setpoint with which saving the other, cut behind the setpoint, leaves a valid newer slot holding that setpoint and the stored remaining words |
| ConfigRuns.TornReload | docs/DESIGN.md:126-127 | From every empty store a run of two landed saves and such a cut one reloads a configuration that is neither the committed one nor the one being saved |
| Ring.TelemRing.Push | lib/telem/ring.c:28-46 | Appends unless eight records are queued; then drops and counts |
| Ring.TelemRing.Pop | lib/telem/ring.c:48-64 | Removes the oldest record, if any |
| Ring.TelemRing.Count | lib/telem/ring.c:66-72 | The number of queued records |
| RingInterleaving.RingSafety | lib/telem/ring.c:28-64 | In every interleaving popped records are a whole prefix of the accepted ones, at most eight queued, attempts conserved, copies never share a slot |
| RingInterleaving.RefinesFifo | lib/telem/ring.c:28-64 | Every step is a step of a bounded queue; a push is lost only when it is full |
| Sensor.DecodeSample | drivers/sensor.c:19-28 | The octets at their places, the first the most significant, as a signed 32-bit number |
| Sensor.SampleValue | drivers/sensor.c:19-28 | What a poll records of a successful read is that number |
| Sensor.PollShows | drivers/sensor.c:119-155 | What each kind of reply does to each flag |
| Sensor.FlagsMean | drivers/sensor.c:56-155 | The flags in terms of positions in the history: polls since the last read, that read's value, equal accepted values at the end |
| Sensor.RetryTerminates | drivers/sensor.c:35-50 | The retry loop, its 8-bit counter wrapping, runs forever iff the limit is 255 and every reply is a NAK |
| Sensor.ReadWithRetry | drivers/sensor.c:35-50 | Whenever it ends, the loop returns the first reply that is not a NAK, or a NAK after exactly the limit plus one reads |
| Sensor.AnswerIs | drivers/sensor.c:35-50 | The loop ends with r iff r is the first reply that is not a NAK within the reads the limit allows, or the retries are spent on NAKs |
| Sensor.Driver.OnSample | drivers/sensor.c:56-98 | Range and stuck checks of one sample |
| Sensor.Driver.PollOnce | drivers/sensor.c:119-155 | After any polls the flags are a function of the poll history: no-data since the last sample, repeats of the last accepted one, class of the last reply |
| Sensor.AcceptedInRange | drivers/sensor.c:56-98 | Every accepted sample is in range |
| Sensor.Driver.LastGoodInRange | drivers/sensor.c:56-98 | The held value, once there is one, is an accepted in-range sample |

## Left out

- Floating-point rounding, and convergence, settling or overshoot of the loop: `Control` and `ClosedLoop` use reals.
- A reboot of one end of the link alone: a sender back at sequence number 0 against a receiver that remembers it is outside the protocol's promise.
- Preemption inside a link operation: the link has no lock of its own, so its operations are taken as atomic.
- Whether an operator clear leads back to RUN: that depends on the application passing the self-test.
- Memory orderings weaker than sequential consistency: the ring's accesses happen in one global order.
- HostLink.DeliversInOrder: the ground station sends sequenced messages only; its unsequenced sends are not part of that link, because a NAK among them breaks the order (HostEndpoint.NakRedelivers).
- HostLink.NoSilentLoss: covers the ground station as sender; towards the ground station, HostEndpoint.ReceiversAgree makes its receiver interchangeable with the node's.
- HostEndpoint.Endpoint.OnFrame: an oversized queued message released by an ACK raises an error that also drops the octets behind that ACK in the same read; the model drops none.
- ConfigRuns.AtomicRegister: assumes the checksum rejects mixed slots; LateTearIsSafe, ShortTearIsSafe and EarlyTearExactly say when it does, TornMixture that it does not always.
- Sensor.ReadWithRetry: its caller rules out the one case in which the loop never ends, a limit of 255 and nothing but NAKs.
- Sensor.Driver.PollOnce: the publication of the sample into the one-entry mailbox is omitted.
- Node.GovNode.Control: telemetry records and heartbeats built from the node's state are straight copies and are omitted.
- lib/telem/telem.c and lib/telem/health.c: record encoding and liveness counters; they enter this model only as the health reports the node is given.
- src/main.c threads, UART, I2C, NVS and watchdog hardware: only the calls they make into the modelled parts matter here.
- The text names of states.
