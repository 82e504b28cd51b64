# Verified model of the CYD system monitor

A small display sits on a Mac's USB port. The Mac (the Host) sends it snapshots of its load over a serial
line that also carries log text; the display runs a WiFi and a BLE receiver in turns on one antenna and
talks to its Bluetooth controller over HCI. This project models the four parts of that system where state,
protocol and arithmetic meet, and proves what they promise over all inputs and all runs.

| component | modules |
|---|---|
| Canonical CBOR codec (RFC 8949 sections 3.1 and 4.2.1), CRC-32 (RFC 1952 section 8) and the resynchronising framer | `Crc`, `Cbor`, `SkipExact`, `Messages`, `Decode`, `SkipProofs`, `RoundTrip`, `ControlRoundTrip`, `FrameRoundTrip`, `Framing`, `Delivery`, `WireFormat`, `DecodeSound`, `DecodeExact`, `BodyExact`, `ControlExact`, `FrameExact`, `Encoders`, `Decoders` |
| HCI events, command tracker and boot sequence (Core v5.x Vol 4 Part E) | `HciEvents`, `HciTracker`, `HciProtocol`, `HciHistory`, `HciCrossing`, `HciBoot` |
| Radio runner, scheduler, coverage ledger and the app loop's copy | `Coverage`, `RadioMessages`, `RadioModel`, `RadioReceivers`, `RadioReplay`, `RadioReports`, `RadioTime`, `RadioClean`, `RadioFaults`, `RadioRuns`, `RadioLimits`, `RadioRunners` |
| Pairing, session and commands, both ends | `DeviceLink`, `DeviceReplies`, `HostSession`, `HostSpeech`, `HostLinks`, `HostClients`, `HostRetries`, `HostService`, `LinkSystem`, `LinkSteps`, `LinkRuns`, `LinkService`, `LinkSequences` |

`Basics` holds the machine words shared by all. Verify everything with `dafny verify dfyconfig.toml`.

## How it is built

Each component is specified by functions on values, and where the source changes things in place there is
a class or a loop proved equal to that specification: `FrameStream`, `Tracker`, `BootSequencer`,
`ObservationScheduler`, `CoverageLedger`, `RadioMonitor`, `RadioRunner`, `PairingStore`, `HostFeed`,
`HostLink`, `HostClient`, `Link`, and the push and index loops of `Encoders` and `Decoders`. The promises are
lemmas about the specification, over whole runs.

* Answers from outside (driver results, clock readings, the pairing store, the calibration handler, bytes
  read before a deadline) are arguments of the specification. In the classes they come from methods that may
  answer anything within their contract, and are handed back as ghost results.
* The radio task's history is an inductive list of what it said and called, with the driver's answers and the
  clock readings that go with them. Each promise is a fold over that list together with a condition on every
  entry, so it holds at every moment of a run, not only at its end.
* What the decoders accept is stated twice: as the functions the loops compute, and, in `DecodeExact` to
  `FrameExact`, as a relation between bytes and message that looks keys up in maps. `FrameExact.DecodeExactly`
  proves them equal.
* The Host and the device are joined by two in-order queues. A message lost anywhere on the way is a message
  lost when it reaches the head, so loss is a step that drops the head. Queues survive a reconnection, and the
  device may restart at any time with what its store holds.

## Assumptions

* Clocks never run backwards. In the HCI model a late reply arrived before its command's quarantine ended,
  there is at most one terminating reply to a command that left, and a completed reset makes the controller
  forget older commands.
* The radio driver keeps its contract: a stop that works turns the receiver off, a start that fails may have
  turned it on. Its waits, its clock and the control source may otherwise behave in any way.
* Session identities are fresh for each connection, and a connection issues fewer than 2^32 commands and numbers
  fewer than 2^32 messages (`LinkSequences.NeverWraps`). The line
  loses frames but does not forge, repeat or reorder them; that single-byte damage is caught is proved, nothing
  is claimed for wider damage.
* A successful `SavePairedHost(h)` makes `PairedHost()` equal `h`, and a successful `ClearPairedHost()` makes it empty.
* The C++ framer, receiver and codec behave as the Rust ones, as host/protocol/src/lib.rs says they do.

## What the proofs found

* **A quarantine can be ended by the wrong reply** (firmware/domain/src/hci.cpp:173-182). A reply that arrived
  inside its own quarantine but is processed only after a later command of the same opcode has timed out too ends
  the later command's quarantine. The later reply can then complete a third command: `HciCrossing.WRONG_RUN` is
  such a run from power-on. `HciCrossing.CrossingIsExact` says when a crossing can go wrong, also while another
  command is pending. It never happens to a firmware that hands over each event as it arrives
  (`AtOnceRunsAnswerRightly`) or each late reply before its quarantine is over; `LooksForeign` is the exact guard
  on what a caller has at hand (`GuardIsExact`).
* **A WiFi fault may clear without the failing channel having been heard** (firmware/domain/src/radio_runner.cpp:294-302).
  The runner counts clean windows, not channels, and a window cut short by a change moves the scheduler on
  without resetting the count. `RadioClean.ClearedExactly` is the exact condition: the whole plan was heard just
  when no two of the windows counted lie a multiple of the plan's length apart. `RadioLimits.FaultMayClearUnheard`
  gives a run where it fails, `RadioLimits.CutSweepMayBeWhole` one where it holds although a window was cut short.
* **An unpair is reported as applied even if the store kept the host** (firmware/domain/src/host_link.cpp:177-180).
  `LinkRuns.UnpairForgetsIfTheStoreDoes` states exactly when the host is forgotten.
* **The one-entry command cache is enough only because the Host finishes or gives up one command before the
  next** (host/hostcore/src/link.rs:308-339); `LinkRuns.EarlierCommandRunsAgain`.
* **The snapshot encoder does not look at the CPU share** that the decoder rejects above 1000 per mille;
  `RoundTrip.SnapshotBodyRoundTrip`.
* Two branches are dead: the stop of the other receiver in `RunWindow` (radio_runner.cpp:204-210), kept in the
  model and shown never taken by `RadioReceivers.OtherIsOff`, and `if (!terminates)` at hci.cpp:187, left
  out of it because of `HciTracker.EngagedMeansTerminates`.

## Model

| member | source | states |
|---|---|---|
| Crc.SingleByteChangesCrc | host/protocol/src/lib.rs:418-427 | two byte strings that differ in exactly one byte have different checksums: every step of the register is injective |
| Crc.ComputeCrc32 | host/protocol/src/lib.rs:418-427 | the bitwise loop computes the recursive specification of the checksum |
| Crc.CheckValues | host/protocol/src/lib.rs:418-427 | the checksum of nothing is 0 and that of the byte 0x7F, whose last bit alone folds the polynomial in, is the standard's 0x12B88320 |
| WireFormat.HeadOnWire | host/protocol/src/lib.rs:371-385 | a head is its major type in the top three bits and the number in the shortest of the five forms of RFC 8949 section 3.1, high byte first |
| WireFormat.FrameOnWire | protocol/CORE_PROTOCOL.md:5-11 | a frame is its length, which counts content and checksum, the content and the checksum of the content, both high byte first |
| WireFormat.EnvelopeOnWire | protocol/CORE_PROTOCOL.md:11-17 | an envelope is the map of keys 0 to 8 with the fields the protocol gives them, the offset biased by 1440 |
| WireFormat.SnapshotOnWire | protocol/CORE_PROTOCOL.md:41-56 | a snapshot body is the CPU's five fields under keys 0 to 4, then each group that is there in the order of its key |
| WireFormat.RamOnWire | protocol/CORE_PROTOCOL.md:52 | the RAM group is key 5 and its five fields in the table's order |
| WireFormat.StorageOnWire | protocol/CORE_PROTOCOL.md:53 | the storage group is key 6 and its eight fields in the table's order |
| WireFormat.BatteryOnWire | protocol/CORE_PROTOCOL.md:54 | the battery group is key 7 and its ten fields in the table's order |
| WireFormat.AgentsOnWire | protocol/CORE_PROTOCOL.md:55 | the agents group is key 8 and its seven fields in the table's order |
| WireFormat.NetworkStringsOnWire | protocol/CORE_PROTOCOL.md:56 | the network group's byte strings are under keys 10 to 13, the links only when reported |
| WireFormat.GoldenBody | protocol/fixtures/cpu-snapshot-v1.hex:1 | the body of the protocol's own sample snapshot, byte for byte |
| Cbor.FromToBe | host/protocol/src/lib.rs:371-385 | big-endian bytes of a number read back to it |
| Cbor.ReadUintExact | host/protocol/src/lib.rs:386-417 | an input reads as the value v with rest t exactly when it is the shortest head of v followed by t: the reader accepts just what the writer writes |
| Cbor.ReadUintLocal | host/protocol/src/lib.rs:386-417 | what an accepted head says does not depend on the bytes after it |
| Cbor.SkipValueLocal | host/protocol/src/lib.rs:1185-1216 | skipping a value looks at nothing beyond it: it ends at the same place inside any longer buffer |
| Cbor.SkipValueShallower | host/protocol/src/lib.rs:1185-1216 | a value skipped at some nesting depth is skipped to the same end at any smaller depth |
| Cbor.SkipBodyLocal | host/protocol/src/lib.rs:1157-1184 | skipping a body ends at the same place inside any longer buffer |
| SkipExact.SkipExactly | host/protocol/src/lib.rs:1185-1216 | an input is skipped to a certain end if and only if up to there it is the shortest form of some definite-length value without tags, floats and simple values, at most four levels deep and sixteen entries wide |
| SkipProofs.SkipBodyOfSnapshot | host/protocol/src/lib.rs:714-811 | every body the snapshot decoder accepts is skipped to exactly its end |
| SkipProofs.SkipBodyOfControl | host/protocol/src/lib.rs:1392-1496 | every body the control decoder accepts, under any message type, is skipped to exactly its end |
| SkipProofs.ReadNetworkSkips | host/protocol/src/lib.rs:999-1110 | a network group that decodes, strings and links included, is one skippable value, also when nested in a body |
| RoundTrip.FieldEntriesRead | host/protocol/src/lib.rs:814-852 | reading the fields a group writer wrote fills every slot with its value, whatever follows |
| RoundTrip.RamRead | host/protocol/src/lib.rs:814-852 | an encodable RAM group decodes to itself |
| RoundTrip.StorageRead | host/protocol/src/lib.rs:869-904 | an encodable storage group decodes to itself |
| RoundTrip.BatteryRead | host/protocol/src/lib.rs:905-953 | an encodable battery group decodes to itself |
| RoundTrip.AgentsRead | host/protocol/src/lib.rs:954-985 | an encodable agents group decodes to itself |
| RoundTrip.NetworkRead | host/protocol/src/lib.rs:999-1110 | a valid network group decodes to itself, absent links and empty identifiers told apart |
| RoundTrip.SnapshotBodyRoundTrip | host/protocol/src/lib.rs:448-621 | the body of an encodable snapshot decodes to that snapshot if and only if its CPU share is at most 1000 per mille, which the encoder does not look at |
| ControlRoundTrip.ControlBodyRoundTrip | host/protocol/src/lib.rs:1268-1345 | every control body the encoder accepts decodes to itself |
| FrameRoundTrip.SingleByteDamage | host/protocol/src/lib.rs:626-640 | a frame with good length and checksum, changed in any one byte, fails as Truncated, TooLarge or BadCrc |
| FrameRoundTrip.DamagedFrameIsRejected | host/protocol/src/lib.rs:626-712 | no single-byte change of a frame whose envelope parses is ever decoded as anything |
| FrameRoundTrip.EnvelopeRoundTrip | host/protocol/src/lib.rs:626-712 | an envelope around a skippable body parses back to the envelope and the very bytes of the body |
| FrameRoundTrip.ForeignMajor | host/protocol/src/lib.rs:640-712 | a frame of another major version is reported as such, not as malformed |
| FrameRoundTrip.SnapshotFrameLength | host/protocol/src/lib.rs:448-621 | a snapshot frame is at most 337 bytes, so TooLarge is never returned; encoding succeeds exactly for encodable snapshots and offsets within a day |
| FrameRoundTrip.SnapshotRoundTrip | host/protocol/src/lib.rs:448-811 | an encoded snapshot decodes to itself exactly when major is 1, the type is snapshot and the CPU share at most 1000 |
| FrameRoundTrip.ControlMessageRoundTrip | host/protocol/src/lib.rs:1268-1496 | an encoded control message decodes to itself under major 1 and to UnsupportedMajor under any other |
| Delivery.ControlEncodes | host/protocol/src/lib.rs:1218-1345 | the control encoder refuses just four things, a mismatched type, a matching code that is not six digits, a long error body and an offset beyond a day; TooLarge is unreachable |
| Framing.DrainAppend | host/protocol/src/lib.rs:278-320 | draining early changes neither frames nor drops nor what is left |
| Framing.FragmentationIndependent | host/protocol/src/lib.rs:278-320 | however bytes are cut into pushes, the frames, the number of dropped bytes and the remainder are the same |
| Framing.BytesConserved | host/protocol/src/lib.rs:278-320 | bytes pushed are bytes returned plus bytes dropped plus bytes held |
| Framing.RestWaits | host/protocol/src/lib.rs:298-320 | after draining at most 2047 bytes are held, and they wait for more |
| Framing.FramesAreSound | host/protocol/src/lib.rs:298-320 | a returned frame never fails as Truncated, TooLarge or BadCrc |
| Framing.SoundIsTaken | host/protocol/src/lib.rs:298-320 | a byte string is sound if and only if the framer takes all of it at the head of any input |
| Framing.FramesSurviveText | host/protocol/src/lib.rs:270-320 | frames separated by log text come back exactly and in order, and only text is dropped |
| Framing.ResyncRecovers | firmware/domain/src/host_feed.cpp:21-28 | a frame hidden behind a false length is recovered when the line goes idle, provided no earlier offset of the stalled bytes happens to start a sound frame (`NothingBefore`) |
| Framing.FrameStream.NextFrame | host/protocol/src/lib.rs:298-320 | the byte-dropping loop returns what the specification of one pull says, with the same drops and remainder |
| Framing.FrameStream.DropLeadingByte | host/protocol/src/lib.rs:290-295 | gives up one byte and counts it |
| Framing.FrameStream.TakeFrames | host/protocol/src/lib.rs:298-320 | pulling until nothing is returned is the specified drain |
| Delivery.MessageRoundTrip | host/protocol/src/lib.rs:1355-1366 | a message its encoder accepts, under major 1 and with a CPU share in range, decodes to itself from a sound frame |
| DecodeSound.GroupKeysOnce | host/protocol/src/lib.rs:814-852 | a group that decodes holds each of its keys exactly once |
| DecodeSound.BodyKeysOnce | host/protocol/src/lib.rs:714-811 | a snapshot body that decodes is a map of at most ten entries: the CPU's five keys once, each group at most once and just the groups the snapshot has, nothing behind |
| DecodeSound.ControlKeysRise | host/protocol/src/lib.rs:1392-1496 | a control body that decodes has rising keys and nothing behind |
| DecodeSound.EnvelopeIsMap | host/protocol/src/lib.rs:640-712 | an envelope that parses has rising keys, 0 to 5 among them, each optional key just when its field is there, and nothing behind |
| DecodeSound.AcceptedIsDeliverable | host/protocol/src/lib.rs:1355-1366 | whatever frame the decoder accepts, its message is one the encoder accepts, and encoding it again decodes to the same message |
| DecodeExact.GroupExact | host/protocol/src/lib.rs:814-985 | a group of required fields decodes to given values if and only if it is a map that gives each of its keys its value, once, in any order and between any unknown entries |
| DecodeExact.RamExact | host/protocol/src/lib.rs:814-852 | the RAM group decodes to r if and only if its map gives r and used is at most total |
| DecodeExact.StorageExact | host/protocol/src/lib.rs:869-904 | the storage group decodes to r if and only if its map gives r and available is at most total |
| DecodeExact.BatteryExact | host/protocol/src/lib.rs:905-953 | the battery group decodes to r if and only if its map gives r and r keeps the bounds of shares, state and condition |
| DecodeExact.AgentsExact | host/protocol/src/lib.rs:954-985 | the agents group decodes to r if and only if its map gives r and every state is at most 3 |
| DecodeExact.NetworkExact | host/protocol/src/lib.rs:986-1110 | the network group decodes to n if and only if its map gives n, strings and links included, and n keeps the group's rules |
| BodyExact.SnapshotBodyExact | host/protocol/src/lib.rs:714-811 | a snapshot body decodes to x if and only if it is a map of at most ten entries that gives x, whatever the order of its entries and whatever unknown entries it has |
| ControlExact.ControlBodyExact | host/protocol/src/lib.rs:1392-1496 | a control body decodes to b if and only if it is b's type of body with rising keys that give b, unknown higher keys ignored |
| FrameExact.ContentExact | host/protocol/src/lib.rs:640-712 | a content parses to an envelope and a body if and only if it is a map of rising keys that gives them under major 1 |
| FrameExact.DecodeExactly | host/protocol/src/lib.rs:1355-1366 | a frame decodes to a message if and only if it is some content between its length and its checksum and that content tells the message |
| FrameExact.UnsupportedExactly | host/protocol/src/lib.rs:640-712 | a content is refused for its major if and only if its first entry declares another one, whatever follows |
| FrameExact.TooLargeExactly | host/protocol/src/lib.rs:640-712 | a content is refused as too large if and only if behind good entries stands a control body of more than 512 bytes |
| Delivery.MessagesSurviveTheLink | host/protocol/src/lib.rs:272-1496 | any mix of messages and log text, cut into pushes in any way, is decoded to exactly the messages in order |
| Decoders.ReadUintAt | host/protocol/src/lib.rs:386-417 | the index-moving loop reads the specified value and stops at the specified place |
| Decoders.SkipValueAt | host/protocol/src/lib.rs:1185-1216 | the recursive loop skips exactly what the specification skips |
| Decoders.SkipBodyAt | host/protocol/src/lib.rs:1157-1184 | the body loop skips exactly what the specification skips |
| Decoders.ReadFieldsAt | host/protocol/src/lib.rs:814-985 | the field loop shared by the metric groups computes the specified reader: each known key once, unknown keys skipped, every field required |
| Decoders.DecodeNetworkAt | host/protocol/src/lib.rs:986-1110 | the network group loop computes the specified decoder |
| Decoders.DecodeSnapshotBodyLoop | host/protocol/src/lib.rs:714-811 | the snapshot body loop computes the specified decoder |
| Decoders.DecodeControlBodyLoop | host/protocol/src/lib.rs:1392-1496 | the control body loop computes the specified decoder |
| Decoders.ParseEnvelopeLoop | host/protocol/src/lib.rs:626-712 | the envelope loop computes the specified parser, error by error |
| Decoders.DecodeFrameLoop | host/protocol/src/lib.rs:1355-1366 | decoding a frame by loops is the specified decoder |
| Encoders.PushUint | host/protocol/src/lib.rs:371-385 | pushing a head appends the shortest head |
| Encoders.EncodeGroupsPush | host/protocol/src/lib.rs:448-621 | building a snapshot frame by pushes gives the specified frame or error |
| Encoders.EncodeControlPush | host/protocol/src/lib.rs:1268-1345 | building a control frame by pushes gives the specified frame or error |
| HciEvents.CarriesIsUnique | firmware/domain/src/hci.cpp:62-83 | a payload carries at most one list of reports: their serialisation is injective |
| HciEvents.AdvertisingReports | firmware/domain/src/hci.cpp:64-83 | all or nothing: an event is advertising exactly when some list of well-formed reports serialises to its payload, and then exactly those reports are delivered, in order |
| HciEvents.Tiles | firmware/domain/src/hci.cpp:64-70 | the first pass accepts exactly the payloads the declared number of reports tile to the last byte |
| HciEvents.Collect | firmware/domain/src/hci.cpp:71-82 | the second pass delivers the reports those bytes carry, each a slice of the payload |
| HciEvents.Parse | firmware/domain/src/hci.cpp:42-89 | on every byte string every access stays in bounds; a packet that is the wire form of a Command Complete, a Command Status, a hardware error or a foreign event is read with just its fields, the opcode low byte first, and what is neither that nor carries advertising reports is malformed |
| HciEvents.ClassifyExact | firmware/domain/src/hci.cpp:42-63 | a packet that is no advertising report is classified with certain fields if and only if it is the wire form with those fields (sections 7.7.14 to 7.7.16 of Core v5.x Vol 4 Part E), ignored exactly as a well-formed packet of another code or subevent, and malformed exactly if it is no wire form |
| HciEvents.WireIsUnique | firmware/domain/src/hci.cpp:42-63 | a packet is at most one wire form |
| HciTracker.Tracker.IssueCommand | firmware/domain/src/hci.cpp:108-127 | issues, or refuses for the specified reason, after expiring quarantines |
| HciTracker.Tracker.BeginSend | firmware/domain/src/hci.cpp:128-134 | reserves the send, sets the floor and spends a credit, exactly when allowed |
| HciTracker.Tracker.Mark | firmware/domain/src/hci.cpp:135-139 | marks the packet sent and raises the floor |
| HciTracker.Tracker.PollDeadline | firmware/domain/src/hci.cpp:140-150 | times the command out after its deadline and quarantines its opcode if it may have left |
| HciTracker.Tracker.Reset | firmware/domain/src/hci.cpp:151-157 | forgets the command, the quarantines and the credit |
| HciTracker.Tracker.HandleEvent | firmware/domain/src/hci.cpp:158-193 | processes an event as specified: timeout first, stale replies, credit, quarantine, attribution; what that makes of the credit and of each answer over a run is `HciHistory` |
| HciProtocol.PollKeeps | firmware/domain/src/hci.cpp:140-150 | a timeout keeps the joint invariant of tracker, controller and replies in flight |
| HciProtocol.LateReplyKeeps | firmware/domain/src/hci.cpp:173-186 | a late reply ends no command, and it keeps the joint invariant if and only if it ends no other command's quarantine |
| HciProtocol.EngagedReplyKeeps | firmware/domain/src/hci.cpp:161-192 | a reply that ends the pending command is that command's own |
| HciProtocol.DeliverKeeps | firmware/domain/src/hci.cpp:158-193 | no event that the invariant allows is attributed wrongly, and the invariant survives it if and only if it does not cross |
| HciProtocol.StepKeeps | firmware/domain/src/hci.cpp:108-193 | every action of tracker and environment that does not cross keeps the joint invariant |
| HciProtocol.RunsAnswerRightly | firmware/domain/src/hci.cpp:108-193 | over any run that never crosses, a completion or rejection comes from the reply to the very command pending, each command has at most one outcome, and a pending opcode is never quarantined |
| HciProtocol.BookkeepingIsSilent | firmware/domain/src/hci.cpp:158-193 | the record of outcomes kept beside the tracker only watches: the tracker does what it does alone, and an outcome is recorded exactly when it reports one |
| HciHistory.CreditIsGranted | firmware/domain/src/hci.cpp:108-193 | from power-on, over any calls at any times: the credit is what the last event not discarded as stale granted, less one if it came while a command was engaged that it did not end, less the commands sent since; and no command leaves without a grant |
| HciHistory.IssueIsGranted | firmware/domain/src/hci.cpp:108-127 | at any point of any run a known command with a timeout the clock can hold is issued exactly when none is pending, its opcode is not quarantined and a grant is left, and each refusal says truly why |
| HciHistory.AnswersAccountedFor | firmware/domain/src/hci.cpp:158-193 | over any run every answer heard ends a command or is counted once, as stale, late or unexpected |
| HciHistory.CommandLeaves | firmware/domain/src/hci.cpp:108-139 | a command that is issued, begun in time and marked is out with one credit spent, under its deadline and its floor |
| HciHistory.AnswerEndsCommand | firmware/domain/src/hci.cpp:158-193 | an answer to a command that is out ends it with the status and the credit it bears, unless it comes after the deadline or was there before the command left |
| HciHistory.SilenceHoldsOpcode | firmware/domain/src/hci.cpp:140-150 | a command that is out times out at the first look at the clock past its deadline and not before, and its opcode is then quarantined for exactly twice its timeout, as far as the clock reaches |
| HciHistory.BootsFromPowerOn | firmware/domain/src/hci.cpp:196-225 | from power-on four commands, each completed in time with credit for another, boot the controller |
| HciCrossing.ExposedGoesWrong | firmware/domain/src/hci.cpp:173-186 | once an old reply has lost its quarantine and nothing is pending, the named four-step continuation is legal and attributes it to a newer command |
| HciCrossing.NextCommutes | firmware/domain/src/hci.cpp:108-193 | an action that neither sends a command nor delivers its reply does the same whether or not that reply is still to come |
| HciCrossing.ContainedStep | firmware/domain/src/hci.cpp:108-193 | while a pending command that cannot end in time shuts an exposed reply out, every legal action that does not cross is right, and leaves the reply shut out or harmless |
| HciCrossing.CrossingIsExact | firmware/domain/src/hci.cpp:158-193 | after any legal action, with or without a command pending, some continuation that crosses no more goes wrong if and only if the action crossed and the command then pending, if any, can be over before the exposed reply's time is: it is not yet out, its deadline comes first, or its own reply can |
| HciCrossing.CrossingIsReachable | firmware/domain/src/hci.cpp:140-192 | the named run from power-on ends in a crossing: two scan commands time out and the first one's reply, which arrived in time, is processed after the second timeout |
| HciCrossing.PowerOnGoesWrong | firmware/domain/src/hci.cpp:158-193 | the named run from power-on is legal and completes a third command with the second one's reply |
| HciCrossing.CarefulRunsAnswerRightly | firmware/domain/src/hci.cpp:158-193 | over any run in which every late reply is handed to OnEvent before its own command's quarantine ends, or at least had not arrived before the command now quarantined was sent, attribution is right, each command has at most one outcome and no pending opcode is quarantined |
| HciCrossing.AtOnceRunsAnswerRightly | firmware/domain/src/hci.cpp:158-193 | the same over any run in which every event is handed over as it arrives |
| HciCrossing.GuardIsExact | firmware/domain/src/hci.cpp:173-186 | a caller's guard, that the opcode is quarantined and the reply arrived before the quarantined command was sent, holds if and only if the delivery crosses in some world of the invariant with the same tracker, clock and send times |
| HciBoot.BootsInOrder | firmware/domain/src/hci.cpp:207-225 | the boot completes exactly when four commands complete before one is rejected or times out |
| HciBoot.TimingExact | firmware/domain/src/hci.cpp:207-213 | whatever results follow, a boot is refused as invalid if and only if not 4 <= window <= interval <= 0x4000, and then it never moves |
| HciBoot.BootSequencer.Hear | firmware/domain/src/hci.cpp:217-223 | advances, fails or ignores a result as specified |
| Coverage.KeptIsExact | firmware/domain/src/coverage.cpp:58-66 | exactly the valid channels are kept, each once, and none that was kept moves |
| Coverage.NormalizeIsNormal | firmware/domain/src/coverage.cpp:58-70 | the result is always runnable, and a configuration is left alone if and only if it is runnable; so normalising twice is normalising once |
| Coverage.KeptInOrder | firmware/domain/src/coverage.cpp:58-66 | the channels that are kept stay in the order in which they were first named |
| Coverage.NormalizeSays | firmware/domain/src/coverage.cpp:39-70 | normalising keeps what is switched on and just the channels 1 to 14, or 1 to 11 if none is among them; a window of no length becomes 205 ms and one over a minute a minute |
| Coverage.PlanFits | firmware/domain/include/firmware/domain/radio_messages.hpp:47-48 | a plan of distinct valid channels has between one and fourteen entries |
| Coverage.NormalizeConfig | firmware/domain/src/coverage.cpp:58-70 | the channel loop computes the specified normal form |
| Coverage.ObservationScheduler.Reconfigure | firmware/domain/src/coverage.cpp:76-85 | changes the configuration as specified |
| Coverage.ChangeStartsOver | firmware/domain/src/coverage.cpp:76-85 | after a change WiFi, if on, has the next window, on the channel whose turn it was if WiFi was on and stays on with the same plan, and on the first of the plan otherwise |
| Coverage.ObservationScheduler.Next | firmware/domain/src/coverage.cpp:87-104 | yields the specified window, or none when both radios are off |
| Coverage.WalkAlternates | firmware/domain/src/coverage.cpp:87-104 | with both radios on, window i of any walk is on the next radio in turn and a WiFi window on the next channel in turn |
| Coverage.FullCycle | firmware/domain/src/coverage.cpp:46-54 | over 2n windows of a plan of n channels the radios alternate, each channel has exactly one window, the scheduler is back where it was, and the planned time is the revisit time, below 2^32 |
| Coverage.PlaceSurvivesChanges | firmware/domain/src/coverage.cpp:76-85 | however dwell times change and BLE is switched, the WiFi windows walk the plan in cyclic order |
| RadioMessages.ConfigRoundTrip | firmware/domain/src/radio_messages.cpp:75-98 | any configuration crosses the message queue as its normal form, whole |
| RadioMessages.TotalsAreSums | firmware/domain/src/coverage.cpp:108-118 | for any reports the ledger's totals of a radio are the sums of planned, clipped observed and dropped over its reports modulo 2^64 and the number of its windows modulo 2^32, beside the values of its last report |
| RadioMessages.PermilleIsShare | firmware/domain/src/coverage.cpp:144-148 | the observed share is at most 1000 per mille and is the true share rounded down |
| RadioMessages.GapsAreNewest | firmware/domain/src/coverage.cpp:119-126 | the ledger shows the newest sixteen of all windows of which less than half was received, oldest first, each with the time that was missed |
| RadioMessages.CoverageLedger.RecordReport | firmware/domain/src/coverage.cpp:108-127 | one report updates totals and gaps as specified |
| RadioMessages.RadioMonitor.Take | firmware/main/main.cpp:417-441 | one message updates the app loop's copy as specified |
| RadioMessages.RadioMonitor.PumpRadio | firmware/main/main.cpp:404-442 | takes at most 32 messages, oldest first, and leaves the rest queued |
| RadioReceivers.StopKeepsFlags | firmware/domain/src/radio_runner.cpp:96-117 | a stop that works clears the flag, one that does not makes the receiver the stuck one |
| RadioReceivers.ReceiversSafe | firmware/domain/src/radio_runner.cpp:96-238 | every part of a step keeps: flags say what the calls imply, at most one receiver may be on, every start finds both off |
| RadioReceivers.OtherIsOff | firmware/domain/src/radio_runner.cpp:202-210 | the branch that stops the other receiver before a start is never taken: both are off whenever a window is planned |
| RadioReplay.ReplayIsPumping | firmware/main/main.cpp:404-442 | replaying a history is pumping its messages one by one |
| RadioReplay.CopyAgrees | firmware/domain/src/radio_runner.cpp:50-154 | every part of a step keeps the copy rebuilt from the messages equal to the scheduler's configuration, generation, started window and faults |
| RadioReplay.MergedSays | firmware/domain/src/radio_runner.cpp:54-72 | a control request changes just the members it names, each to what it names, normalised |
| RadioFaults.FaultsHold | firmware/domain/src/radio_runner.cpp:96-311 | every part of a step keeps: a fault is raised directly after the call that failed, with the driver's own fault, and whenever the app loop does not hold that fault already; a stuck receiver has a fault, and a radio that is off, its receiver too, has none |
| RadioFaults.BleClearsAtOnce | firmware/domain/src/radio_runner.cpp:294-302 | a Bluetooth fault clears at the end of a window if and only if it started, was received for a millisecond or more and stopped when asked to |
| RadioReports.ReportBalances | firmware/domain/src/radio_runner.cpp:277-279 | a report carries what was taken for it and what was carried forward, up to the 32-bit limit |
| RadioReports.BooksBalance | firmware/domain/src/radio_runner.cpp:157-311 | every part of a step keeps the drop accounts balanced, starts a receiver only for the window just opened on its channel, and reports windows one by one in order |
| RadioReports.IdsCount | firmware/domain/src/radio_runner.cpp:193-196 | window k has id k modulo 2^32, and all windows but the open one have been reported |
| RadioTime.MeasuredWithinPlan | firmware/domain/src/radio_runner.cpp:281-287 | observed time is the clipped interval in whole milliseconds, and at most the planned time |
| RadioTime.TimesHold | firmware/domain/src/radio_runner.cpp:157-311 | every part of a step keeps: what is received for a window runs from the later of its planned start and the clock at its start to the earlier of its deadline and the clock before its stop, its report says exactly that time, a completed one was received up to its deadline, windows follow one another without a gap unless a change or a stuck receiver came between, and stop retries are at least the backoff apart |
| RadioClean.BackComesRound | firmware/domain/src/coverage.cpp:91-96 | going k places back in a plan of n ends at the same place if and only if n divides k |
| RadioClean.SpreadIsAll | firmware/domain/src/coverage.cpp:91-96 | as many clean windows as the plan has channels cover the whole plan if and only if no two of them lie a multiple of its length apart |
| RadioClean.SweepHolds | firmware/domain/src/radio_runner.cpp:54-311 | every part of a step keeps: the channels heard clean are those at the clean windows' distances behind the scheduler's place, and while WiFi has a fault the count is the number of those windows, below the length of the plan |
| RadioClean.ClearsExactly | firmware/domain/src/radio_runner.cpp:294-302 | a WiFi window that runs out clears the fault if and only if it was clean and the count reached the length of the plan |
| RadioClean.ClearedExactly | firmware/domain/src/radio_runner.cpp:294-302 | when the count clears the fault, every channel of the plan had a clean window since the count started if and only if no two of the windows counted lie a multiple of the plan's length apart; so in particular when none since was cut short or measured nothing |
| RadioRuns.NewRunnerIsGood | firmware/domain/src/radio_runner.cpp:46-48 | a new runner satisfies the whole invariant |
| RadioRuns.ActionKeeps | firmware/domain/src/radio_runner.cpp:127-311 | every part of every step keeps the whole invariant |
| RadioRuns.RunKeeps | firmware/domain/src/radio_runner.cpp:127-155 | so does every run |
| RadioRuns.OneReceiverAtATime | firmware/domain/src/radio_runner.cpp:96-238 | over every run and failure pattern at most one receiver can be on, every start finds both off, and with no window open the one flagged running is the stuck one |
| RadioRuns.CopyIsExact | firmware/main/main.cpp:404-442 | over every run the pumped messages give the exact configuration, generation, window in progress and faults; no configuration message falls between a window's start and its report, both bear the generation the app loop holds, each configuration bears the next generation and changes something, and each fault message changes the fault |
| RadioRuns.FaultsAreHeard | firmware/domain/src/radio_runner.cpp:96-311 | over every run the app loop hears of each failed start, and each failed stop of a receiver not yet stuck, at once and in the driver's own words, unless it holds that very fault, and hears of no other; a stuck receiver has a fault, and a radio that is off has none unless its receiver is stuck |
| RadioRuns.BleFaultClears | firmware/domain/src/radio_runner.cpp:294-302 | in every run a Bluetooth fault clears at the end of a window if and only if it started, was received for a millisecond or more and stopped when asked to |
| RadioRuns.ReportsAreExact | firmware/domain/src/radio_runner.cpp:256-303 | in every run each report says, in whole milliseconds, exactly the time from the later of planned start and clock at the start to the earlier of deadline and clock before the stop, and one reported complete was received up to its deadline |
| RadioRuns.WindowsFollow | firmware/domain/src/radio_runner.cpp:176-200 | in every run a window starts when the one before it was over and reported, or when it is planned if none was, its configuration changed or a receiver was stuck, and its deadline is its planned time later |
| RadioRuns.LedgerSaysReports | firmware/main/main.cpp:404-442 | what the app loop's ledger says of a radio is the sums, gaps and last report of the reports sent |
| RadioRuns.EveryDropIsReported | firmware/domain/src/radio_runner.cpp:157-303 | over every run reported plus carried drops never exceed those taken and equal them until a 32-bit count is full; every window is reported once, in order, under its number, as a driver fault exactly when a start or stop failed in it; a window cut short by a change is followed at once by the new configuration |
| RadioRuns.ObservedWithinElapsed | firmware/domain/src/radio_runner.cpp:176-311 | over every run the receive intervals are disjoint, and all observed time together is at most the time that passed and short of what was received by less than a millisecond a report |
| RadioRuns.LedgerIsHonest | firmware/domain/src/coverage.cpp:108-148 | over every run of fewer than 2^38 windows the app loop's ledger holds true sums over both radios within the elapsed time, and neither share exceeds 1000 per mille |
| RadioRuns.FaultClearsAfterSweep | firmware/domain/src/radio_runner.cpp:294-302 | in every run: when the count clears a WiFi fault, as many clean windows as the plan has channels were counted, and they covered the plan if and only if no two lie a multiple of its length apart; so in particular when none since was cut short or measured nothing |
| RadioLimits.FaultMayClearUnheard | firmware/domain/src/radio_runner.cpp:240-302 | a run in which the channel that failed is cut short, the two windows counted lie two apart on a plan of two, and the fault clears without that channel having been heard |
| RadioLimits.CutSweepMayBeWhole | firmware/domain/src/radio_runner.cpp:240-302 | a run in which a window is cut short, the two counted lie one apart, and the fault clears with the whole plan heard |
| RadioRunners.RadioRunner.WaitUntil | firmware/domain/src/radio_runner.cpp:74-94 | ends for every driver and every control source, changes nothing, and returns only requests that would change the configuration |
| RadioRunners.RadioRunner.Apply | firmware/domain/src/radio_runner.cpp:54-72 | merges, compares and applies a request as specified |
| RadioRunners.RadioRunner.RaiseFault | firmware/domain/src/radio_runner.cpp:102-110 | notes a fault, telling the app loop only when it is new or different |
| RadioRunners.RadioRunner.StickReceiver | firmware/domain/src/radio_runner.cpp:112-117 | a receiver that would not stop is held stuck with a backoff |
| RadioRunners.RadioRunner.RunWindow | firmware/domain/src/radio_runner.cpp:185-238 | plans a window, makes sure the other receiver is off, starts its own and on failure makes sure it is off |
| RadioRunners.RadioRunner.OpenNext | firmware/domain/src/radio_runner.cpp:176-238 | waits for the start, unless a change comes first or the wait gives up, then runs the window |
| RadioRunners.RadioRunner.ResumeWindow | firmware/domain/src/radio_runner.cpp:240-254 | a window left open by a stalled clock is resumed and closed only at its deadline, by a change or when a receiver is stuck |
| RadioRunners.RadioRunner.Finish | firmware/domain/src/radio_runner.cpp:256-311 | closes the interval, stops, accounts, reports and applies the pending change as specified; that the report is the time received is `RadioRuns.ReportsAreExact` |
| RadioRunners.RadioRunner.RetryTheStop | firmware/domain/src/radio_runner.cpp:157-174 | retries a stop only after the backoff, and carries forward what was lost meanwhile |
| RadioRunners.RadioRunner.Step | firmware/domain/src/radio_runner.cpp:127-155 | a step, whatever driver and controls answer, is a sequence of the model's actions, keeps the whole invariant, gives the sink every message, and leaves at most one receiver truly on |
| DeviceLink.ReactKeeps | firmware/domain/src/host_link.cpp:21-181 | whatever a host sends: the feed is open exactly in an open session, then the stored host is the session's host; at most eight frames are queued |
| DeviceLink.PairedHostChanges | firmware/domain/src/host_link.cpp:108-181 | the stored host becomes h only when the operator accepts a pending Pair from h while none is stored, and is forgotten only by an unpair |
| DeviceLink.SessionOpens | firmware/domain/src/host_link.cpp:82-135 | a session opens only for the stored host naming this display, or by accepting the very host and session that were pending |
| DeviceLink.SnapshotApplies | firmware/domain/src/host_feed.cpp:40-63 | a snapshot is applied if and only if a session is open, it is for that session and its sequence is beyond all applied since it opened |
| DeviceLink.PairingWaitsAMinute | firmware/domain/src/host_link.cpp:21-27 | a Pair that waits for the operator from time t waits through all ticks before t + 60000 ms, and the first tick at or past that declines it, with exactly one message, error 3 |
| DeviceReplies.SaysOne | firmware/domain/src/host_link.cpp:183-196 | an input makes the device say one thing or nothing, numbered after the last, or 1 if it opens a session, and the newest eight wait |
| DeviceReplies.NewestWait | firmware/domain/src/host_link.cpp:190-196 | over any inputs, until they are taken, the newest eight of all messages wait, in order |
| DeviceReplies.NoGaps | firmware/domain/src/host_link.cpp:190-196 | over any inputs, while no session opens, its messages are numbered without gaps |
| DeviceReplies.OpeningCountsFromOne | firmware/domain/src/host_link.cpp:119-135 | a session starts the numbers again at 1 |
| DeviceReplies.UnpairKeyEnds | firmware/domain/src/host_link.cpp:144-147 | the unpair key ends a session and a waiting pairing alike, so that no touch does anything, and forgets the host if the store does |
| DeviceReplies.HelloStartsOver | firmware/domain/src/host_link.cpp:56-80 | so does a Hello, which is answered with protocol 1.0 or, for another major, with error 1 |
| DeviceReplies.ForeignFrameEnds | firmware/domain/src/host_link.cpp:28-38 | so does a frame of another major, with error 1 |
| DeviceReplies.FaultStaysFit | firmware/domain/src/host_link.cpp:56-135 | the displayed fault is the incompatible major exactly while the phase says so, and a session that opens clears any fault |
| HostLinks.HostLink.SendMessage | firmware/domain/src/host_link.cpp:190-196 | numbers, encodes and queues a reply, the oldest making room |
| HostLinks.HostLink.HearHello | firmware/domain/src/host_link.cpp:56-80 | a Hello ends the session, then gets the version as reply or, for another major, a refusal |
| HostLinks.HostLink.HearPair | firmware/domain/src/host_link.cpp:82-106 | a Pair opens the session for the stored host naming this display, waits for the operator when no host is stored and none is named, and is otherwise refused |
| HostLinks.HostLink.Confirm | firmware/domain/src/host_link.cpp:108-117 | accepting opens the pending session if the store saves the host; otherwise the Pair is declined |
| HostLinks.HostLink.HearCommand | firmware/domain/src/host_link.cpp:149-181 | executes, answers from the cache or ignores, as specified |
| HostLinks.HostLink.UnpairLocally | firmware/domain/src/host_link.cpp:144-147 | forgets the host if the store does, and closes the session |
| HostLinks.HostLink.Push | firmware/domain/src/host_feed.cpp:15-19 | bytes pushed are framed, decoded and handled in order, exactly as the specification handles the drained frames |
| HostLinks.HostLink.Tick | firmware/domain/src/host_link.cpp:21-27 | an idle partial frame is given up byte by byte rescanning after each, and an unconfirmed pairing expires as `DeviceLink.PairingWaitsAMinute` says |
| HostLinks.HostFeed.HearSnapshot | firmware/domain/src/host_feed.cpp:40-54 | the session gate accepts or rejects a snapshot as specified |
| HostClients.HostClient.SendHello | host/transport/src/client.rs:135-149 | the opening Hello is the specified frame |
| HostClients.HostClient.Receive | host/transport/src/client.rs:152-161 | bytes received are framed, decoded and handled in order; the frames returned encode the messages the specification sends |
| HostClients.HostClient.HandleReceived | host/transport/src/client.rs:163-213 | only the awaited kind of message, for this session, host and code, moves the client on; what it sends and reports is as specified |
| HostClients.HostClient.MakeSnapshot | host/transport/src/client.rs:222-230 | a snapshot frame only when live, under the next sequence; that a session's numbers increase and its snapshots are applied is `LinkSequences` |
| HostClients.HostClient.NewCommand | host/transport/src/client.rs:234-239 | a command under a new identity |
| HostClients.HostClient.RetryCommand | host/transport/src/client.rs:241-255 | a command again, under its old identity and the next sequence |
| HostClients.HandshakeProgress | host/transport/src/client.rs:163-213 | a client shaking hands has reported neither success nor refusal, sends at most one Pair, and is live only after it |
| HostSpeech.HearsExactly | host/transport/src/client.rs:163-213 | a client goes live exactly on the Pair for its session, identity and code after it sent its own, is refused exactly by an error during the handshake, sends its Pair exactly on the reply to its Hello, and reports a result exactly for a reply in its session |
| HostSpeech.HelloReads | host/transport/src/client.rs:135-149 | a Hello encodes if and only if the offset is within a day, and the device then reads protocol 1.0, the Host's time and offset |
| HostSpeech.PairReads | host/transport/src/client.rs:163-186 | a Pair encodes if and only if also the code has six digits, and the device then reads the Host, the display it expects or none, and the code |
| HostSpeech.CommandReads | host/transport/src/client.rs:241-255 | the device reads a command's identity and operation under the session's next sequence |
| HostSpeech.SnapshotReads | host/transport/src/client.rs:222-230 | a snapshot is deliverable if and only if it is encodable, its CPU share in range and the offset within a day, and the device then reads it with its time and offset under the session's next sequence |
| HostRetries.RetriesAreCopies | host/hostcore/src/link.rs:308-339 | every retry repeats the command's identity and operation, and there is at most one an attempt |
| HostRetries.Link.ConnectWith | host/hostcore/src/link.rs:168-237 | a Hello at once and again when due until the Pair is sent, what is heard handled turn by turn, and the first event that ends the handshake returned; running out of turns is the timeout |
| HostRetries.ConnectingSays | host/hostcore/src/link.rs:168-237 | whatever is heard, a connection sends Hellos and then at most one Pair, and succeeds only after that Pair |
| HostService.ConnectsInTime | host/hostcore/src/link.rs:168-237 | a display silent but for its HelloReply in turn i and its answer to the Pair in turn j is connected to, or its refusal returned; the Host has sent a Hello at once and each time it was due up to turn i, and then one Pair |
| HostService.SilenceTimesOut | host/hostcore/src/link.rs:168-237 | a display that never answers is a timeout, and has been sent nothing but Hellos |
| HostService.AnsweredInTime | host/hostcore/src/link.rs:308-339 | a reply in attempt k, after silence, is returned, and the command has been sent again exactly k times |
| HostService.SilenceIsTimeout | host/hostcore/src/link.rs:308-339 | silence in every attempt is a timeout after as many retries as attempts |
| HostRetries.Link.SendCommand | host/hostcore/src/link.rs:308-339 | writes the command and the specified retries, and returns the first reply to its identity |
| LinkSteps.InitIsGood | firmware/domain/src/host_link.cpp:15-19 | a device just switched on and a fresh client satisfy the joint invariant |
| LinkSteps.ExecutedIsNew | firmware/domain/src/host_link.cpp:149-168 | a command that executes is beyond every command its session executed |
| LinkSteps.ExecutionKeeps | firmware/domain/src/host_link.cpp:149-181 | executing a command keeps the joint invariant |
| LinkSteps.OpenKeeps | firmware/domain/src/host_link.cpp:119-135 | opening a session keeps the joint invariant |
| LinkSteps.ReceiveKeeps | host/transport/src/client.rs:163-213 | a message handled by the Host keeps the joint invariant |
| LinkSteps.StepKeeps | firmware/domain/src/host_link.cpp:21-196 | every step of Host, device or link keeps the joint invariant |
| LinkRuns.AtMostOnce | firmware/domain/src/host_link.cpp:149-181 | over every run no two steps execute the same command and no two open the same session, however often the Host retries and across unpairing, reconnection, loss and restarts |
| LinkRuns.AnswerMeansExecutedOnce | host/hostcore/src/link.rs:308-339 | whatever result the Host's caller is given, exactly one step executed that command with that operation, and it was Applied unless the result is Rejected |
| LinkRuns.LiveMeansOpenedOnce | host/transport/src/client.rs:188-198 | a live Host was let in by exactly one step of the device, for its session, host and code; a Host that names a display is live only with that display |
| LinkRuns.OpensOnlyForTheTrusted | firmware/domain/src/host_link.cpp:82-135 | a session opens only for the stored host, or on the operator's touch for the code and host pending |
| LinkRuns.FirstPairingWasTouched | firmware/domain/src/host_link.cpp:101-117 | unless the store held the host at first power-on, the operator accepted a code that host's Pair carried |
| LinkRuns.PairedNamesTheDevice | host/transport/src/client.rs:188-198 | the identity the Host keeps is the device's own |
| LinkRuns.EverythingSentIsDeliverable | firmware/domain/src/host_link.cpp:190-196 | everything either end queues encodes and decodes to itself, so the queues stand for the byte streams |
| LinkRuns.EarlierCommandRunsAgain | firmware/domain/src/host_link.cpp:152-168 | the cache holds one entry: a host that returned to an earlier command would have it executed again |
| LinkRuns.UnpairForgetsIfTheStoreDoes | firmware/domain/src/host_link.cpp:161-180 | an executed unpair is reported as applied and closes the session; the host is forgotten if and only if the store let it go |
| LinkService.UndisturbedHandshake | host/transport/src/client.rs:135-198 | with nothing lost, a connection of a host to a display that holds no host or this one ends with both ends in the same session, the operator, if asked, taking up to a minute whatever ticks come meanwhile |
| LinkService.UnknownOrWelcome | firmware/domain/src/host_link.cpp:82-106 | a host is unknown to a display in exactly the cases that are not those of an undisturbed handshake |
| LinkService.UndisturbedRefusal | firmware/domain/src/host_link.cpp:82-106 | with nothing lost an unknown host is told it is not paired, and the display keeps the host it has |
| LinkService.UndisturbedDecline | firmware/domain/src/host_link.cpp:101-117 | with nothing lost a first pairing that the operator refuses, the store does not keep or a tick finds a minute old is told it was declined, and nothing is stored |
| LinkSequences.StepNumbers | host/transport/src/client.rs:215-255 | every step keeps: the messages of a session on their way bear increasing numbers beyond the gate's and up to the client's |
| LinkSequences.NumbersIncrease | host/transport/src/client.rs:215-255 | over every run the snapshots, commands and retries of one session bear strictly increasing numbers from 1 up, below 2^32 |
| LinkSequences.ArrivedIsApplied | firmware/domain/src/host_feed.cpp:40-63 | over every run, whatever is lost, a snapshot that reaches the display while its session is open is applied, beyond all applied before |
| LinkSequences.UndisturbedSnapshots | host/transport/src/client.rs:222-230 | with nothing lost n snapshots of a session are applied, all n, under distinct rising numbers |
| LinkSequences.UndisturbedFeed | host/transport/src/client.rs:135-230 | from a calm start, a handshake and then n snapshots leave exactly the numbers 1 to n applied |
| LinkSequences.WrappedIsStale | host/transport/src/client.rs:215-218 | once a session's 32-bit number is used up the next message bears 0, which no display applies |
| LinkService.UndisturbedCommand | host/hostcore/src/link.rs:308-339 | with nothing lost a command is executed once and answered with what the device did |

## Left out

- CBOR lengths are natural numbers: the unguarded addition of a length to the position at host/protocol/src/lib.rs:1197 cannot wrap in the model.
- `Parse` of a null packet pointer, and a missing report callback: the model has byte strings and always collects.
- `hci::Build` and the bytes of `BootSequence`: constants.
- The version diagnostics of the link (host major and minor, negotiated minor), the UTC anchor, the host state reducer and the feed's counters: values copied from one message, with no effect on the protocol.
- A session that numbers more than 2^32 messages: its next number is 0, refused by every display (`LinkSequences.WrappedIsStale`); a build with overflow checks stops at the increment.
- The content of a snapshot once it is applied: `appliedInSession` keeps its number.
- Five retries and the one-second deadlines of `Link::command` appear in `HostRetries.Link.SendCommand`; the joint model allows any number of retries and any time between them.
- `Link::connect` printing, cancellation, the boot wait and the `CYD:LINK` text line: input and output. That text between frames is harmless is `Framing.FramesSurviveText`.
- `FaultText`: a fault is kept as its operation and code, from which the text is made.
- `MakeCoverageView` beyond the observed share, `FormatCoverage` and `MakeCoverageStatus`: display.
- `BoundedEventQueue` and the platform's event ring: the driver hands over counts.
- The separate arrays for a fault's activity, operation and code in `RadioRunner`, and the two-entry arrays per radio, are one value per radio in the class.
- RadioRunners.RadioDriver.Start: `StartWifi` and `StartBle` are one method with the radio as an argument, and likewise the stops.
- Locks, task queues, serial ports, the screens and the rest of main.cpp.
