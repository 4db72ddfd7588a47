# Earbud application and charger case tools: verified models

Models of six pieces of the repository, with proofs about all inputs, all runs and all reachable states. Where the
source changes state in place, the model is a class or a method with loops that is proved to do what a pure
specification says, and the theorems are about that specification.

`dafny verify dfyconfig.toml` checks everything.

## What is modelled

**Handover marshalling** (`Handover*.dfy`). At a handover the old primary asks every registered client for its objects
and writes them into buffers of any size; it stops inside an interface when a buffer is full and resumes from a cursor
that all devices share. The new primary collects the objects in a list whose length it has counted in advance, gives
them to the owning clients at Complete, commits, and frees everything. `HandoverCodec` is the marshal library for
objects without pointers: an object is written as two pieces, its type with its values and then an end marker, and a
piece that does not fit is held back. `HandoverWalk`, `HandoverCollect` and `HandoverSpec` say what the calls do;
`HandoverApp` is the linked list, the tagged union and the cursors as the source has them. `HandoverMarshal` proves
that the sizes of the buffers do not matter, `HandoverUnmarshal` that the sizes of the chunks do not, `HandoverComplete`
the round trip with the commits between Unmarshal and Complete, `HandoverRuns` and `HandoverOnce` the ownership of memory.
`HandoverEligible` says which objects go with a device by the categories of their types and the mirrored address, and
`HandoverLog` counts what Complete does.
The library keeps every object that it was given in a set of at most 254; the model counts them.

**S-records and CRC** (`Hex`, `SRecord`, `Resize*`, `Crc`, `ImageCrc`, `Dfu*`). `build.py`
computes a CRC with a reflected algorithm on bit-swapped words and writes it into a header; `dfu.py` re-chunks the
records and sends one half of the file by stop-and-wait. The CRC is modelled bit by bit as section 8 of RFC 1952
defines it. The models of all steps are put together in `DfuHeader.BuiltAndDelivered`, and in
`DfuText.BuiltAndRead` over the lines of text that the sender reads.

**Application state machine** (`EarbudSm*.dfy`). States with their 16-bit encoding, entry and exit actions, the
disconnect lock, and the messages that are pending: physical state indications in a queue, completions that wait for the
lock in another, and counts of delayed timeouts. A run is any sequence of deliverable messages with any answers from
other modules (connected, audio active, charging, reset reason, test mode). The invariant of all runs is the class
invariant of `EarbudSm.Machine`. `EarbudSmAudio` says what the states tell of the audio, and `EarbudSmDiagram` is the
state diagram by the numbers of the states.

**Timers at handover** (`TimerHandover.dfy`). Deadlines as wrapping 32-bit microseconds between two clocks.

**Touch gestures** (`Touch*.dfy`). Counters and four timers of the second touch sensor; time passes in milliseconds.
`TouchNumbers` says what is sent, and when, by numbers.

**Thermistor** (`Thermistor.dfy`). The lookup that starts at the previous temperature.

## Results that contradict an expectation

Each of these is a lemma; when the expected behaviour does hold is stated in the same lemma or in one beside it.

- `resize` loses the last bytes of a file that ends in an incomplete piece (`ResizeMeaning.MemoryKeptExactly`).
- `resize` does not compose when empty S3 records keep two abutting runs apart (`ResizeCompose.ResizeComposes`).
- The A/B selection by halving is right for halves of equal length, or with one record more in B
  (`DfuSender.SelectsTheOtherImage`).
- A reply that comes after the 100 ms timeout, an ACK or a NACK, can make the sender skip a lost record
  (`DfuSender.LateReplySkipsARecord`). A timeout is harmless exactly when no reply is on its way or the current record is
  the S7 one (`DfuSender.TimeoutIsHarmlessExactly`).
- A device for which no client has anything to hand over makes the new primary panic at its commit: nothing was
  unmarshalled for it, so the commit finds it new (`HandoverComplete.HeldCommits`, `HandoverComplete.HandoverRoundTrip`).
- More than 254 objects for one device overflow the object set of the marshal library
  (`HandoverMarshal.SetHoldsTheSupply`). On the receiving side so do chunks that end just before an end marker again and
  again, because each leaves a copy in the set (`HandoverUnmarshal.CutsDoNotMatter`).
- Interleaving the marshalling of two devices loses or repeats objects, except when from the cursor left behind the same
  objects follow (`HandoverMarshal.InterleavingIsRightExactly`). The caller in the repository never interleaves: it
  marshals each device in one call that has to complete
  (adk/src/domains/bt/profiles/handover_profile/handover_profile_apps_p1.c:79-107).
- A core state can be wrong when the primary role is lost before topology has started, at once or after the next movement
  (`EarbudSmRuns.EarlyLossIsWrong`, `EarbudSmRuns.EarlyLossTrustsTheCache`); core states can be trusted exactly in the runs
  in which no such loss acts (`EarbudSmRuns.CoreStatesAgree`). Whether a role can be lost that early depends on another
  module: the topology code confirms the start before it reports a role
  (adk/src/topologies/tws/common/core/tws_topology.c:245-292).
- With the in-case idle timeout configured, the machine can panic on a second idle timer
  (`EarbudSmRuns.IdlePanicUnreachable`).
- A timer record left over from an aborted handover starts timers later (`TimerHandover.StaleRecordStartsTimers`).
- A double press held for 61 seconds is released silently (`TouchGestures.DoubleHoldOf61IsSilent`), a hold of more than
  66 seconds ends in a single click (`TouchGestures.TooLongClicks`), and 257 quick taps are a single click
  (`TouchGestures.TapsClickOnce`).

## Where the code and its comments differ

The model follows the code.

- The comment of `earbudHandover_Marshal` (earbud/src/earbud_handover.c:607-609) says that on TRUE the marshalling
  instance is destroyed and the state set back; the code keeps both until cleanup.
- The comment of the fallback for releases speaks of the closest release event; for a double press the code walks on
  down through the numbers of the double holds, too, to the first single release
  (earbud/src/peripherals/touchpad_psoc4000s.c:424-434).

## Assumptions

- Handover: a client gives the same answer when it is asked again after a short buffer, supplies objects of the size its
  type descriptor says, and accepts or refuses independently of what else it was given. Both sides have the same
  descriptors, types and mirrored device. `*consumed` is 0 when Unmarshal is called.
- Sender: a reply that is read is the oldest one on its way, and replies come within the timeout or not at all. That only
  the S7 record contains the text S7 is proved of every file that build_dfu writes.
- State machine: the physical state module tells a registered client of every change, in order, and never reports the
  unknown state as a change. Panics that answer to unexpected sleep-prepare and init-confirm messages, or to an unknown
  physical state at startup, depend on senders that are not part of this model and are kept as outcomes.
- State machine: the out-of-case idle timeout is not zero, as configured (earbud/src/earbud_sm_config.h:74); the in-case
  one is a parameter.
- Touch: a release message is handled before the next touch interrupt.

## Model

| member | source | states |
|---|---|---|
| HandoverComplete.HandoverRoundTrip | earbud/src/earbud_handover.c:510-794 | the round trip with all its stages: distinct devices are marshalled one after another into buffers of any sizes until each is complete, the streams are handed over in any chunks, every device is committed on both sides in any order, and both sides complete; both sides have the same types and mirrored device, and no type is registered twice. The old primary panics exactly when a device overruns the object set of its library, never at the commits, and completes with one commit per client. The new one panics while it unmarshals exactly when a device overruns the object set, and at the commits exactly when no client had anything for some device. Else it panics at Complete exactly when a client refuses an object, and otherwise everything it does, in order, is: each client gets exactly the objects that the same client supplied, once each, in stream order per device; each client commits exactly once, in table order (counted in the log, HandoverLog.CompleteLog); the link policy of each device is updated once; the releases |
| HandoverLog.CompleteLog | earbud/src/earbud_handover.c:567-593 | in the log of Complete, whatever it starts from and in either role: for each client there is exactly one commit, with that role, and no other commit; commits come in table order, after the last object given to a client and before the first release; the link policy of an address is updated once for each device that has it, as primary only, after the commits; as secondary no client is given anything |
| HandoverEligible.StreamIsWanted | earbud/src/earbud_handover.c:658-704 | for a device marshalled to its end: a type is in the stream if and only if it is per instance or the address is that of the mirrored device, and its client answers with something; the objects are the answers of those clients, in table order; and the bytes are type, values and 0xFF of each |
| HandoverEligible.CompleteGives | earbud/src/earbud_handover.c:534-577 | after any run of the entry points, Complete as primary gives to clients exactly those collected objects whose type is per instance or whose device is the mirrored one, once each, in list order, each to the first client in the table that has the type |
| HandoverEligible.GenericGoesWithMirrored | earbud/src/earbud_handover.c:658-704 | a generic type: device 1 and a buffer of three bytes give 0, 7, 255 when device 1 is the mirrored one and nothing otherwise, TRUE in both cases |
| HandoverEligible.NothingRegistered | earbud/src/earbud_handover.c:612-794 | without any types marshalling answers TRUE with nothing written, committing does nothing, and unmarshalling for a new device panics |
| HandoverEligible.RunsKeepFocus | earbud/src/earbud_handover.c:275-286 | over every run the focus flag of a device says whether its address is that of the mirrored one |
| HandoverComplete.HeldCommits | earbud/src/earbud_handover.c:510-528 | committing the received devices in any order changes nothing, and panics exactly when for some device no client had anything to hand over |
| HandoverComplete.ListedCommits | earbud/src/earbud_handover.c:510-528 | committing the marshalled devices never panics and changes nothing |
| HandoverComplete.SmallestHandover | earbud/src/earbud_handover.c:510-794 | the hypotheses of the round trip and every condition in it can be met: one client with one type, one device, one chunk |
| HandoverComplete.OneChunkHolds | adk/src/domains/bt/profiles/handover_profile/handover_profile_apps_p1.c:79-150 | for transfers of one chunk each, as the caller makes them, no object set is overrun on either side exactly when no device has more than 254 objects |
| HandoverOnce.RoundTripReleasesOnce | earbud/src/earbud_handover.c:293-310 | what the round trip has collected is a state of some run of the entry points, so at its end each collected object is released exactly once, unless its client was asked and keeps it; after an abort instead, exactly once |
| HandoverOnce.LeftBehind | os/qcc514x_qcc304x/hydra_os/src/fw/src/core/marshal/unmarshal.c:204-269 | however the stream of a device is cut, and wherever it stops: the calls allocate as many objects as were put into the object set, and an abort would release only those that were collected; the difference are unfinished copies, which stay behind |
| HandoverOnce.LeftBehindByAll | os/qcc514x_qcc304x/hydra_os/src/fw/src/core/marshal/unmarshal.c:204-269 | the same over all devices of a handover, each with its own cuts |
| HandoverMarshal.ChunksDoNotMatter | earbud/src/earbud_handover.c:612-708 | for any number of calls with buffers of any sizes: the bytes written are those of the first pieces of the flat list of everything the eligible types supply, as many as go into the buffers one after another, none lost or repeated at a resume point; the last call answers TRUE exactly when all are written; other devices are unchanged; a call panics exactly when the supply has more pieces than the object set allows and the buffers have room for those |
| HandoverMarshal.RoomyBuffersProgress | earbud/src/earbud_handover.c:656-707 | when every buffer has room for each piece, every call makes progress until all is written |
| HandoverMarshal.SetHoldsTheSupply | os/qcc514x_qcc304x/hydra_os/src/fw/src/core/marshal/marshal_object_set.c:47-73 | marshalling a device never panics, whatever the buffers, exactly when its clients supply at most 254 objects |
| HandoverMarshal.CompletedDevice | earbud/src/earbud_handover.c:612-708 | the answer is TRUE exactly when the bytes written so far are the encoding of all objects supplied for the device |
| HandoverMarshal.MarshalStep | earbud/src/earbud_handover.c:656-707 | a call for a device in progress writes as many of the pieces still owed as fit, in order, touches no other device, and panics exactly when the object set overflows on the way |
| HandoverMarshal.InterleavingIsRightExactly | earbud/src/earbud_handover.c:643-693 | after any first call for another device in between, the first device answers as it would have without it, in every buffer, exactly when from the cursor left behind the same objects follow what it has pending |
| HandoverMarshal.InterleavingResumes | earbud/src/earbud_handover.c:643-693 | after any first call for another device, the first one goes on with what it had pending and then from the cursor that the other one left |
| HandoverMarshal.InterleavingLoses | earbud/src/earbud_handover.c:643-658 | in particular, a second device that is marshalled to its end in between makes the first one report completion with nothing written |
| HandoverWalk.WalkIsGreedy | earbud/src/earbud_handover.c:658-704 | the nested, suspended and resumed walk over interfaces and types writes the pieces of the flat object list greedily, is done exactly when none is left, and panics exactly when there are more pieces than the object set allows and the buffer has room for those |
| HandoverCodec.MarshalObjectIsGreedy | os/qcc514x_qcc304x/hydra_os/src/fw/src/core/marshal/marshal.c:284-382 | one call writes whole pieces, as many as fit; after a short buffer the object that is owed is finished first; a new object takes a place in the object set for good |
| HandoverCodec.FitIsLargest | os/qcc514x_qcc304x/hydra_os/src/fw/src/core/marshal/marshal.c:107-117 | the number of pieces written is the largest that fits into the room left |
| HandoverUnmarshal.CutsDoNotMatter | earbud/src/earbud_handover.c:727-794 | however a stream is cut, what has been collected is the first objects of the peer, in order, as many as the cuts amount to; a call panics exactly when the object set would have to hold more than 254, counting the objects consumed and one for each call that ended just before an end marker |
| HandoverUnmarshal.WholeStreamTaken | earbud/src/earbud_handover.c:727-794 | once the whole stream has been handed over, all objects have been consumed |
| HandoverUnmarshal.GrowingCutsPushTwice | os/qcc514x_qcc304x/hydra_os/src/fw/src/core/marshal/unmarshal.c:204-269 | with cuts that grow, the object set holds at most two of each object, so 127 objects never overrun it |
| HandoverUnmarshal.OneChunkPushesEachOnce | os/qcc514x_qcc304x/hydra_os/src/fw/src/core/marshal/unmarshal.c:204-269 | when the stream is handed over at once, the object set holds each object once |
| HandoverUnmarshal.UnmarshalStep | earbud/src/earbud_handover.c:761-793 | one chunk that starts at the next object adds exactly the complete objects in it, consumes exactly their bytes, and answers TRUE exactly when the chunk is used up; it panics exactly when that takes more places in the object set than are left |
| HandoverUnmarshal.CountFits | earbud/src/earbud_handover.c:320-346 | the eight-bit count of eligible types does not wrap when types are unique and have descriptors, so the list has one entry for each |
| HandoverUnmarshal.RoomForAll | earbud/src/earbud_handover.c:320-346 | the list sized in advance has room for everything a peer with the same types and focus can send, so the capacity panic is unreachable |
| HandoverUnmarshal.SuppliedIsRecognised | earbud/src/earbud_handover.c:769-776 | every object such a peer sends has a registered type with a descriptor, so the unknown-type panic is unreachable |
| HandoverUnmarshal.FirstUnmarshalCall | earbud/src/earbud_handover.c:741-759 | the first call for a device prepares it as the later ones find it |
| HandoverCollect.ReadOne | os/qcc514x_qcc304x/hydra_os/src/fw/src/core/marshal/unmarshal.c:204-321 | reading at the start of an object gives it when it is there in full; otherwise only unfinished copies of it stay behind, one more exactly when just the end marker is missing; it panics exactly when the values are there and the object set is full |
| HandoverCollect.CollectPrefix | earbud/src/earbud_handover.c:761-793 | from a buffer that starts at an object boundary, exactly the complete objects are stored, in order and once, and the consumed bytes are theirs; a panic happens exactly when they take more places in the object set than are left |
| HandoverCollect.ReadObject | os/qcc514x_qcc304x/hydra_os/src/fw/src/core/marshal/unmarshal.c:204-269 | a root object that is read ends after its first byte and within the buffer; a full object set is a failure of its own |
| HandoverComplete.DispatchToOwner | earbud/src/earbud_handover.c:377-396 | the owner of an object is the client that supplied it; the dispatch panics exactly when that client refuses it |
| HandoverComplete.DispatchToAll | earbud/src/earbud_handover.c:534-577 | over all devices: the calls made are exactly those that give each supplier its objects back, and a panic happens exactly when one is refused |
| HandoverComplete.Shipped | earbud/src/earbud_handover.c:612-708 | device after device: the streams are the encodings of what was supplied, exactly when each device was completed; a panic happens exactly when a device overruns the object set |
| HandoverComplete.Arrived | earbud/src/earbud_handover.c:727-794 | device after device: the new primary holds all objects of all devices, the latest device first, and nothing has been called yet; a panic happens exactly when a device overruns the object set |
| HandoverRuns.RunsKeepInv | earbud/src/earbud_handover.c:120-149 | over every run of marshal, unmarshal, commit, complete and abort calls that does not panic, in any order: the union member is the one for the mode, addresses in the list are distinct, the cursor points at an interface with types, no client was asked about an object still in a list, and each piece of collected memory is referred to or was released at most once |
| HandoverRuns.StepConserves | earbud/src/earbud_handover.c:293-310 | no call creates, duplicates or twice releases memory: what is referred to or released afterwards was so before, or is newly allocated |
| HandoverRuns.CompleteReleases | earbud/src/earbud_handover.c:293-310 | after any run, Complete in either role releases each collected object exactly once, unless as primary it asked the client that owns the type and that answers that it keeps it |
| HandoverRuns.DispatchAllStores | earbud/src/earbud_handover.c:534-564 | the status stored with an entry is the answer of the client that owns its type; it stays failure when the type is skipped for the device |
| HandoverRuns.AbortReleases | earbud/src/earbud_handover.c:402-451 | after any run, Abort releases each collected object exactly once |
| HandoverRuns.NeverAgain | earbud/src/earbud_handover.c:402-451 | memory that no device refers to any more is never released later, so what a client kept stays its own |
| HandoverRuns.MarshalCallCases | earbud/src/earbud_handover.c:624-631 | marshalling panics at once exactly for a device that is being unmarshalled |
| HandoverRuns.UnmarshalCallCases | earbud/src/earbud_handover.c:732-759 | unmarshalling panics before reading anything exactly without data, without interfaces, or for a device that is being marshalled |
| HandoverApp.Handover.constructor | earbud/src/earbud_handover.c:805-826 | starts with an empty list and null cursors |
| HandoverApp.Handover.GetNextInterface | earbud/src/earbud_handover.c:484-504 | the loop finds the next interface that has types |
| HandoverApp.Handover.IsAnyValidInterfaceRegistered | earbud/src/earbud_handover.c:244-255 | TRUE exactly when some interface has types |
| HandoverApp.Handover.GetInterfaceForType | earbud/src/earbud_handover.c:377-396 | the nested search finds the first interface with the type, and its place in it, or none |
| HandoverApp.Handover.FindDevice | earbud/src/earbud_handover.c:262-275 | the walk over the linked list finds the first device with the address |
| HandoverApp.Handover.AddDevice | earbud/src/earbud_handover.c:275-286 | the new device is linked in front, with the focus flag of its address; the others are unchanged |
| HandoverApp.Handover.GetOrCreateDevice | earbud/src/earbud_handover.c:262-287 | finds or adds; afterwards exactly one device has the address |
| HandoverApp.Handover.MarshalTypes | earbud/src/earbud_handover.c:660-691 | the inner loop is the walk to the end of the interface, or to the type that did not fit, where the cursor stays |
| HandoverApp.Handover.MarshalInterfaces | earbud/src/earbud_handover.c:658-704 | the outer loop is the whole walk from the saved cursor, and leaves the cursor where it stopped |
| HandoverApp.Handover.BeginDevice | earbud/src/earbud_handover.c:643-654 | starting a device rewinds the cursor and sets its mode and union member together |
| HandoverApp.Handover.Marshal | earbud/src/earbud_handover.c:612-708 | the method does to the linked list, cursors and buffers exactly what the specification says, panics exactly when it says so, and keeps the invariant |
| HandoverApp.Handover.CountTypes | earbud/src/earbud_handover.c:320-346 | the nested count with its eight-bit wrap |
| HandoverApp.Handover.CollectObjects | earbud/src/earbud_handover.c:764-793 | the read loop is the specified collection: same objects, same bytes consumed, same panics |
| HandoverApp.Handover.Unmarshal | earbud/src/earbud_handover.c:727-794 | the method does exactly what the specification says, panics exactly when it says so, and keeps the invariant |
| HandoverApp.Handover.CleanupDevice | earbud/src/earbud_handover.c:293-310 | releases the filled entries in order except those a client keeps, and clears mode and union member |
| HandoverApp.Handover.CleanupDeviceList | earbud/src/earbud_handover.c:429-440 | unlinks every device, each after its own cleanup, so the list ends empty |
| HandoverApp.Handover.DispatchEntry | earbud/src/earbud_handover.c:534-562 | one entry: owner, category filter, the client is asked, and a refusal panics |
| HandoverApp.Handover.ClientUnmarshalForDevice | earbud/src/earbud_handover.c:534-562 | the loop over the filled list: the specified calls in order, statuses stored in place |
| HandoverApp.Handover.DispatchToDevices | earbud/src/earbud_handover.c:571-577 | the loop over the linked list dispatches every device in list order |
| HandoverApp.Handover.CommitInterfaces | earbud/src/earbud_handover.c:578-581 | every registered interface commits exactly once, in table order: counted in what is added to the log |
| HandoverApp.Handover.ForcePolicies | earbud/src/earbud_handover.c:583-589 | one link policy update for each device, in list order |
| HandoverApp.Handover.Complete | earbud/src/earbud_handover.c:567-593 | dispatch, commits, policies, cleanup; the new state is the specified one, the list is empty, and the counts of HandoverLog.CompleteLog hold of the log |
| HandoverApp.Handover.Commit | earbud/src/earbud_handover.c:510-528 | panics exactly when interfaces have types and the device is unknown, having added it as not handed over; otherwise changes nothing |
| HandoverApp.Handover.Abort | earbud/src/earbud_handover.c:800-803 | everything collected is released, the list is empty and the cursor null |
| Crc.StepSimulation | rdp/charger_case_comms_stm32/build.py:107-125 | reflecting the register turns one step of the unreflected CRC into one shift of the reflected CRC (section 8 of RFC 1952) |
| Crc.ByteSimulation | rdp/charger_case_comms_stm32/build.py:120-121 | one byte of zlib.crc32, seen through the reflection, is the unreflected CRC over its bits, lowest first |
| Crc.WordSimulation | rdp/charger_case_comms_stm32/build.py:120-121 | zlib.crc32 over a bit-swapped word is the unreflected CRC over the byte-swapped word, mirrored |
| Crc.BitSwap | rdp/charger_case_comms_stm32/build.py:93-104 | 32 rounds of shifting reverse the word |
| Crc.TextBitsAreTheValue | rdp/charger_case_comms_stm32/build.py:121 | the bits fed to the CRC are those of the number that the eight digits stand for |
| Crc.PolynomialIs | rdp/charger_case_comms_stm32/build.py:107-125 | the polynomial is the number 0x04C11DB7 |
| ImageCrc.OneCrc | rdp/charger_case_comms_stm32/build.py:107-125 | of the bytes FF FF FF FF 01 00 00 00 the CRC is 0x04C11DB7 |
| ImageCrc.WordText | rdp/charger_case_comms_stm32/build.py:120-121 | the number read from eight characters is the little-endian word of the four bytes, byte-swapped |
| ImageCrc.PadText | rdp/charger_case_comms_stm32/build.py:112-118 | the padding loop, which counts characters, adds the same FF bytes as make_s3 does by counting bytes |
| ImageCrc.AddPayload | rdp/charger_case_comms_stm32/build.py:120-121 | the inner loop advances the CRC by exactly the payload as little-endian words, and fails exactly when a digit is not hexadecimal |
| ImageCrc.CalculateCrc32 | rdp/charger_case_comms_stm32/build.py:107-125 | for every list of records: the result is the CRC with polynomial 0x04C11DB7, initial value 0xFFFFFFFF, nothing reflected and no final XOR, over the padded payloads as little-endian words; ValueError exactly when a payload is not hexadecimal |
| SRecord.MakeS3 | rdp/charger_case_comms_stm32/dfu.py:34-54 | the record made is the specified one for the padded payload, or ValueError; EmitReadsBack and OneRecord say what that record is |
| SRecord.Checksum | rdp/charger_case_comms_stm32/dfu.py:43-47 | the sum over character pairs, or ValueError exactly when some character is no digit |
| SRecord.PadPayload | rdp/charger_case_comms_stm32/dfu.py:37-39 | the payload is filled up with FF to a multiple of four |
| SRecord.EmitReadsBack | rdp/charger_case_comms_stm32/dfu.py:34-54 | every emitted record that fits has a correct count, its bytes, count and checksum among them, sum up to 255 modulo 256, and it parses back to its own address and payload |
| SRecord.OneRecord | rdp/charger_case_comms_stm32/dfu.py:34-54 | one record in full: the bytes 01234567 at 0x08000000 give S30908000000012345671E |
| SRecord.ChecksumCloses | rdp/charger_case_comms_stm32/dfu.py:43-52 | a line of any kind that ends in the ones complement of the sum of its pairs has bytes that sum up to 255 modulo 256; the sum is defined by places, apart from the loop |
| SRecord.StripsWhite | rdp/charger_case_comms_stm32/dfu.py:66-67 | rstrip takes off the ASCII white space at the end, line breaks among it, and nothing else |
| SRecord.OversizeIsNotMotorola | rdp/charger_case_comms_stm32/dfu.py:41 | a record whose address or count needs more digits is not a valid S3 record |
| Resize.PushPair | rdp/charger_case_comms_stm32/dfu.py:93-102 | one pair: stored, and written out exactly when size bytes are stored |
| Resize.HandleLine | rdp/charger_case_comms_stm32/dfu.py:66-114 | one line: the four variables and the output after it are the specified ones, ValueError included |
| Resize.ResizeLines | rdp/charger_case_comms_stm32/dfu.py:57-116 | the loop computes the specified stream, record by record, and fails exactly when a line cannot be read or written |
| ResizeMeaning.StreamIsRechunk | rdp/charger_case_comms_stm32/dfu.py:57-116 | the one-pass stream is the cutting of each contiguous run by itself exactly when the input does not end in a run whose length the size does not divide; always so when it ends in another line |
| ResizeMeaning.MemoryKeptExactly | rdp/charger_case_comms_stm32/dfu.py:57-116 | for every size divisible by 4, the memory image (with the filling after each run) is kept exactly when the input does not end in a run whose length the size does not divide; else its last bytes are never written |
| ResizeMeaning.ResizeKeepsMemory | rdp/charger_case_comms_stm32/dfu.py:57-116 | the (address, byte) pairs of the output are those of the input plus at most three FF bytes directly after each run, and other lines keep their order |
| ResizeMeaning.ResizeWritesGoodPieces | rdp/charger_case_comms_stm32/dfu.py:34-116 | each payload written is a positive multiple of four and at most size bytes |
| ResizeFiles.FileKeepsMemory | rdp/charger_case_comms_stm32/dfu.py:57-116 | the same on files of text: every line of the output parses, as a record with a correct count and checksum, to what the stream wrote |
| ResizeFiles.WriteThenRead | rdp/charger_case_comms_stm32/dfu.py:34-71 | writing records and reading the lines gives the records |
| ResizeFiles.FileKeepsCrc | rdp/charger_case_comms_stm32/dfu.py:57-116 | re-chunking keeps the CRC of a file for every legal size when only the last record of a contiguous run may have a length not divisible by four |
| ResizeCrc.BlocksMessage | rdp/charger_case_comms_stm32/build.py:107-125 | joining the records of a contiguous run does not change what the CRC is taken over |
| ResizeCompose.ResizeComposes | rdp/charger_case_comms_stm32/dfu.py:57-116 | resizing twice is resizing once with the second size, for all legal sizes and runs of whole words, exactly when no two abutting runs that only an empty record kept apart meet inside a piece |
| ResizeCompose.DataEverywhereIsClean | rdp/charger_case_comms_stm32/dfu.py:57-116 | when every S3 record carries data the condition holds, so there resize composes and is idempotent |
| ResizeFiles.FileResizeComposes | rdp/charger_case_comms_stm32/dfu.py:57-116 | two passes over a file of text give what the second pass alone gives, for all legal sizes, exactly under the same condition |
| ResizeFiles.ResizeOk | rdp/charger_case_comms_stm32/dfu.py:34-116 | whether resize fails on a file does not depend on the size |
| DfuSender.SelectsTheOtherImage | rdp/charger_case_comms_stm32/dfu.py:206-214 | the image kept is exactly the one not running, in both cases, if and only if B has as many records as A or one more |
| DfuSender.Sender.Iterate | rdp/charger_case_comms_stm32/dfu.py:167-241 | one round of the loop over the line it has read does what the specification says, IndexError included; DfuText says what that is for each text |
| DfuText.ContainsIsSlice | rdp/charger_case_comms_stm32/dfu.py:172-214 | a word is found in a line if and only if it is a slice of it |
| DfuText.HearIs | rdp/charger_case_comms_stm32/dfu.py:172-239 | what the loop takes from a line is decided by the words in it, and by none without the tag DFU: and a blank |
| DfuText.ReadyRound | rdp/charger_case_comms_stm32/dfu.py:200-214 | on header, A, B, S7 with halves that can be told apart: a line with Ready and (A) leaves header, B, S7; with Ready and without (A) it leaves header, A, S7; without Ready nothing changes |
| DfuText.AnswerRound | rdp/charger_case_comms_stm32/dfu.py:222-237 | a line with NACK repeats the record; otherwise one with ACK moves on to the next record, or from the S7 record to the end; otherwise only the timeout repeats it |
| DfuText.CompleteRound | rdp/charger_case_comms_stm32/dfu.py:239-241 | after the S7 record only a line with Complete ends the loop |
| DfuText.AbortRound | rdp/charger_case_comms_stm32/dfu.py:180-183 | a line with Error or a row of dashes ends the loop in every state |
| DfuText.CompletedReadingsDeliver | rdp/charger_case_comms_stm32/dfu.py:161-241 | a completed run over lines of text has stored header, one image and S7: image B if and only if the first Ready line has (A) in it |
| DfuText.SpokenRunDelivers | rdp/charger_case_comms_stm32/src/dfu.c:227-487 | over the very lines that the charger case prints there is, for every file and whichever image is running, a run that completes; the other image is sent, each record written, stored and acknowledged exactly once, in order |
| DfuSender.Sender.IterateSafely | rdp/charger_case_comms_stm32/dfu.py:167-241 | the same round together with the wire and the receiver: in a plausible and prompt round from a safe world the sender does not run off its list, and the world stays safe |
| DfuSender.Sender.Run | rdp/charger_case_comms_stm32/dfu.py:161-241 | the loop over whatever is read: it ends with Off or with nothing left to read, in the world that the run of these rounds leads to, and that is safe |
| DfuSender.Sender.DeleteRunningImage | rdp/charger_case_comms_stm32/dfu.py:206-214 | the slices deleted are those of the running image |
| DfuSender.RunsAreSafe | rdp/charger_case_comms_stm32/dfu.py:167-241 | for any pattern of lost and damaged records, NACKs and timeouts in which a reply answers the latest transmission: the acknowledged records are a prefix of header, selected image, S7; they were stored in order with none left out; retransmissions repeat the current record; the index stays in range; Complete means all were acknowledged |
| DfuSender.SafeAckedAreStored | rdp/charger_case_comms_stm32/dfu.py:167-241 | in any such run, an aborted one included, every acknowledged record has been stored |
| DfuSender.CompletedRunsStoreAll | rdp/charger_case_comms_stm32/dfu.py:239-241 | a completed run has stored every selected record |
| DfuSender.CompletedRunsDeliver | rdp/charger_case_comms_stm32/dfu.py:200-241 | with halves that can be told apart, what was stored is header, the image not running, S7 |
| DfuSender.CleanRunCompletes | rdp/charger_case_comms_stm32/dfu.py:161-241 | for every file and whichever image is running there is a run, over a line without faults, that completes; in it every record is sent, stored and acknowledged exactly once, in order |
| DfuSender.TimeoutIsHarmlessExactly | rdp/charger_case_comms_stm32/dfu.py:224-237 | from every safe world in which a reply is awaited: after a timeout without an answer, whatever plausible and prompt rounds follow, acknowledged records are stored, if and only if no reply is on its way or the current record is the S7 one |
| DfuSender.LateReplySkipsARecord | rdp/charger_case_comms_stm32/dfu.py:224-237 | the promptness of replies is needed: for every file and every selected record but the last there is a run in which one late ACK for that record makes the next one count as acknowledged although it was lost |
| DfuHeader.S0 | rdp/charger_case_comms_stm32/build.py:62-90 | the header text, with the name filled up to seven characters, count and checksum |
| DfuHeader.HeaderSays | rdp/charger_case_comms_stm32/build.py:62-90 | for all CRCs and names the header is a well-formed S0 record from which both CRCs read back, each from its own place |
| DfuHeader.HeaderBytes | rdp/charger_case_comms_stm32/build.py:62-90 | read byte by byte: address 0, each CRC as a number with its lowest byte first in its own place, the bytes of the first seven characters of the name or of the name filled up with zeros, one zero byte |
| DfuHeader.LastLineIsMotorola | rdp/charger_case_comms_stm32/build.py:170-190 | the S7 line has a correct count and checksum |
| DfuHeader.BuildDfu | rdp/charger_case_comms_stm32/build.py:128-163 | the file is header, S3 lines of A, S3 lines of B, S7; ValueError exactly when some payload is not hexadecimal |
| DfuHeader.S3LinesMessage | rdp/charger_case_comms_stm32/build.py:139-156 | the CRC is taken over exactly the lines that are copied |
| DfuHeader.BuiltFileIsSound | rdp/charger_case_comms_stm32/build.py:128-163 | whatever build_dfu writes is a file as the sender needs it: only its last line mentions S7 |
| DfuText.BuiltAndRead | rdp/charger_case_comms_stm32/build.py:104-190 | end to end over text: with (A) in the first Ready line the records stored have the CRC of image B, otherwise that of A, and the stored header gives this number, lowest byte first, in the place for that image |
| DfuText.CanBeRead | rdp/charger_case_comms_stm32/src/dfu.c:227-487 | and the lines of the charger case can make it so, whichever image is running |
| DfuHeader.BuiltAndDelivered | rdp/charger_case_comms_stm32/dfu.py:119-245 | build_dfu, resize and sender together: after a completed run, all selected lines are stored, and the CRC that the stored header gives for the image that was not running is the CRC of the stored records |
| DfuHeader.CanBeDelivered | rdp/charger_case_comms_stm32/dfu.py:119-245 | and for every such file and whichever image is running there is a run that completes so |
| DfuHeader.WordFileIsSendable | rdp/charger_case_comms_stm32/build.py:128-163 | there is such a file for every variant name and legal size: one word per image |
| DfuFile.HalvesStayApart | rdp/charger_case_comms_stm32/dfu.py:57-116 | resize works on each half of a DFU file as if it were alone, unless B starts where A ends |
| DfuFile.ResizedParts | rdp/charger_case_comms_stm32/dfu.py:157-159 | the resized file is header, resized A, resized B, S7 line |
| DfuFile.SentImageCrc | rdp/charger_case_comms_stm32/dfu.py:57-116 | header, one resized half and S7 line have the CRC of that image as build.py read it |
| DfuFile.DeliveredImageHasHeaderCrc | rdp/charger_case_comms_stm32/dfu.py:119-245 | a completed run has stored a file with the CRC of the image that was not running |
| EarbudSmRuns.RunsAreFine | earbud/src/earbud_sm.c:821-1027 | over all runs of messages, whatever other modules answer: the state stays a named one; a held disconnect lock has its timeout pending; each initiated disconnection was completed once, in order, or is still waiting; allow-sleep and prohibit-sleep alternate and sleep is allowed exactly in the sleepy states; without the in-case timeout exactly one idle timer is pending in OUT_OF_CASE_IDLE and none elsewhere; after registration and with no indication on its way a core state agrees with the physical state |
| EarbudSmRuns.EncodingIsClosed | earbud/src/earbud_sm.h:99-156 | every reachable state is named, with at most one parent bit and exactly one substate bit, and the unsupported-state panics cannot happen |
| EarbudSmRuns.TerminatingIsNamed | earbud/src/earbud_sm.c:1285-1290 | replacing the substate by TERMINATING leads from every named state to a named state with the same parent |
| EarbudSmRuns.SleepyStates | earbud/src/earbud_sm.h:357-359 | the bit test for sleepy states picks out exactly the four soporific ones |
| EarbudSmRuns.CoreStates | earbud/src/earbud_sm.h:177-183 | the bit test for core states picks out exactly the idle, busy and soporific ones |
| EarbudSmRuns.SetStateKeeps | earbud/src/earbud_sm.c:821-1027 | one transition, with its exit and entry functions and the nested one from the DFU check, keeps the invariant or panics as only unknown states can |
| EarbudSmRuns.CoreStateAgrees | earbud/src/earbud_sm.c:312-349 | the core state computed has the parent of the physical state |
| EarbudSmAudio.AudioShows | earbud/src/earbud_sm.c:312-356 | over all runs, after a message that acts (audio, place or pairing confirmed in a state they act on, topology started, a role loss that acts): the busy bit is set if and only if audio is active out of the case or in the ear; without it the state is the idle one of its parent; the parent is that of the cached place |
| EarbudSmAudio.CoreShowsAudio | earbud/src/earbud_sm.c:312-356 | over all runs every core state is the one for audio and place at the last message that acted, or the soporific one after it |
| EarbudSmAudio.IdleTimeoutLeadsTo | earbud/src/earbud_sm.c:1650-1664 | 0x2008 to 0x2002 and 0x4008 to 0x4002, with sleep allowed, and a panic from every other state |
| EarbudSmAudio.SleepPrepareLeadsTo | earbud/src/earbud_sm.c:1258-1273 | 0x2002 to 0x2004 and 0x4002 to 0x4004, and a panic from every other state |
| EarbudSmDiagram.RunsFollowDiagram | earbud/src/earbud_sm.c:821-3206 | the state diagram by numbers: over every run, each message leads from the state before it to the one the diagram gives for the place and the answers, through all exit and entry functions; it reboots or panics exactly where the diagram says; and the role, the known place, the initiated actions, the disconnect lock, the pending link timeouts and the flag for pairing by the user are as the diagram says |
| EarbudSmRuns.StepKeeps | earbud/src/earbud_sm.c:2784-3206 | every message keeps the invariant or stops the machine for a reason outside it |
| EarbudSmRuns.CoreStatesAgree | earbud/src/earbud_sm.c:359-400 | for every run, an if-and-only-if: core states agree with the real physical state whenever no indication is undelivered, at every moment of the run and after any one movement from it, exactly when no early role loss acts in the run; a loss acts when topology has not started, it is not reported by a DFU reset, and the state is not the one of a DFU in the case |
| EarbudSmRuns.EarlyLossTrustsTheCache | earbud/src/earbud_sm.c:2188-2333 | at the moment of a loss that acts: it enters a core state, which agrees with the real physical state exactly when the cached one is the same place: in the case, out of it, or in the ear |
| EarbudSmRuns.EarlyLossIsWrong | earbud/src/earbud_sm.c:2188-2333 | a run in which it does not agree |
| EarbudSmRuns.IdlePanicUnreachable | earbud/src/earbud_sm.c:1650-1664 | the idle-timeout panic is unreachable exactly when the in-case timeout is not configured |
| EarbudSmRuns.InCaseTimeoutPanics | earbud/src/earbud_sm.c:693-743 | a run that reaches the panic with the in-case timeout configured: completed charging starts a second timer, and only one is cancelled |
| EarbudSmRuns.CompletionsGetThrough | earbud/src/earbud_sm.c:1841-1847 | in every reachable state a waiting completion can be delivered at once, or after the pending link timeout |
| EarbudSmRuns.EveryDisconnectionCompletes | earbud/src/earbud_sm.c:2163-2186 | from every reachable state the pending messages suffice to perform each initiated action exactly once |
| EarbudSm.Machine.constructor | earbud/src/earbud_sm.c:3445-3522 | starts initialising, with the physical state read once and the invariant of EarbudSmRuns established; every handler below keeps it, or panics for a reason outside |
| EarbudSm.Machine.InitiateLinkDisconnection | earbud/src/earbud_sm.c:433-452 | the lock is held exactly when the handset is connected; the completion waits for it and the timeout is pending |
| EarbudSm.Machine.Exit | earbud/src/earbud_sm.c:827-902 | the exit functions of the state that is left, and the panic for an unnamed one |
| EarbudSm.Machine.ChangeState | earbud/src/earbud_sm.c:904-945 | sleep is prohibited before and allowed after the change, exactly at the borders of the sleepy states |
| EarbudSm.Machine.Enter | earbud/src/earbud_sm.c:947-1024 | the entry functions, and the panic for an unnamed state |
| EarbudSm.Machine.SetState | earbud/src/earbud_sm.c:821-1027 | the whole transition, with the nested call from the DFU check |
| EarbudSm.Machine.SetCoreState | earbud/src/earbud_sm.c:351-356 | to the core state for place and audio, which EarbudSmAudio pins to the numbers; no transition when the state does not change |
| EarbudSm.Machine.HandleRoleChange | earbud/src/earbud_sm.c:2188-2333 | the role is stored, and only the loss of the primary role can change the state |
| EarbudSm.Machine.HandleTopologyStartCfm | earbud/src/earbud_sm.c:2335-2356 | ignored outside startup; else registers, re-reads the physical state, enters a core state and takes the role |
| EarbudSm.Machine.HandlePhyStateChanged | earbud/src/earbud_sm.c:1204-1254 | takes the oldest indication; which states react depends on it |
| EarbudSm.Machine.HandleIdleTimeout | earbud/src/earbud_sm.c:1650-1664 | to the soporific state of the case, or a panic |
| EarbudSm.Machine.HandleSleepPrepare | earbud/src/earbud_sm.c:1258-1273 | to the soporific-terminating state, or a panic |
| EarbudSm.Machine.HandleInitConfirm | earbud/src/earbud_sm.c:1092-1113 | to the DFU check, ignored in DFU or terminating, or a panic |
| EarbudSm.Machine.HandleNoDfu | earbud/src/earbud_sm.c:2086-2127 | to startup or test mode, unless DFU has begun |
| EarbudSm.Machine.HandlePairRule | earbud/src/earbud_sm.c:1301-1316 | pairing from the two idle states, not user initiated |
| EarbudSm.Machine.HandlePairHandset | earbud/src/earbud_sm.c:1791-1800 | pairing by the user, only when idle and primary |
| EarbudSm.Machine.HandleLinkComplete | earbud/src/earbud_sm.c:2163-2186 | the oldest completion is performed and one timeout is cancelled |
| EarbudSm.Machine.SetInitialCoreState | earbud/src/earbud_sm.c:359-400 | registers, re-reads the physical state and enters the core state for it, keeping the invariant; a panic has a reason outside, such as an unknown physical state |
| EarbudSm.Machine.HandleHandsetDisconnected | earbud/src/earbud_sm.c:1044-1055 | once the handset has gone, every completion that waits can be delivered |
| EarbudSm.Machine.HandleLinkTimeout | earbud/src/earbud_sm.c:1841-1847 | every completion that waits can be delivered |
| EarbudSm.Machine.HandleChargerCompleted | earbud/src/earbud_sm.c:703-722 | an idle timer is started only in IN_CASE_IDLE with the timeout configured, so without it the number of timers stays as expected of the state |
| EarbudSm.Machine.HandleDeleteHandsets | earbud/src/earbud_sm.c:1804-1823 | a disconnection is initiated only when idle; the lock is held only with its timeout pending |
| EarbudSm.Machine.HandleMessage | earbud/src/earbud_sm.c:2784-3206 | from a state that satisfies the invariant every message does what the specification says and keeps it, and a panic is one that only messages from other modules, or the in-case timeout, can cause |
| TimerHandover.ClocksCancel | earbud/src/earbud_sm_handover.c:49-75 | whatever the two clocks show and however often they wrap, the offset after the handover is that of the true remaining time modulo 2^32 |
| TimerHandover.FutureDeadline | earbud/src/earbud_sm_handover.c:67-75 | a deadline still to come is met, less than a millisecond early and never late, exactly when it lies less than 2^31 microseconds ahead |
| TimerHandover.PastDeadline | earbud/src/earbud_sm_handover.c:67-75 | a deadline already passed fires at once exactly when its distance does not look like a millisecond or more to come; always within 2^31 microseconds |
| TimerHandover.HandoverMovesTimers | earbud/src/earbud_sm_handover.c:117-253 | the old primary holds no timer afterwards exactly when it had at most one of each kind; the new one holds exactly the timers the old one held exactly when something was sent or its record was cleared; both records are cleared |
| TimerHandover.MovedTimersKeepDeadlines | earbud/src/earbud_sm_handover.c:117-253 | each timer that moved keeps its deadline when that lies within 2^31 microseconds of the commit |
| TimerHandover.Transfer | earbud/src/earbud_sm_handover.c:117-253 | on two objects: after marshalling, copying the record over, and both commits the new primary holds the timers that the old one held, by their deadlines, and the old one holds none |
| TimerHandover.StaleRecordStartsTimers | earbud/src/earbud_sm_handover.c:213-253 | a record left over from an aborted handover starts timers that the old primary did not hold |
| TimerHandover.Owner.Marshal | earbud/src/earbud_sm_handover.c:117-168 | the record holds the absolute time of the first pending timer of each kind, and the answer says whether there is any |
| TimerHandover.Owner.Commit | earbud/src/earbud_sm_handover.c:213-253 | the new primary starts what the record says, the old one cancels one of each kind, and the record is cleared |
| TouchGestures.TapsClickOnce | earbud/src/peripherals/touchpad_psoc4000s.c:514-594 | from idle, k quick taps and then silence send, besides the raw press and release actions of each tap, exactly one click action, for k modulo 256, when that is between 1 and 9, and none otherwise; afterwards the counters are zero |
| TouchGestures.HoldSendsEachSecond | earbud/src/peripherals/touchpad_psoc4000s.c:514-594 | a hold of h full seconds, 1 to 65, sends the held actions 1 to h once each in order, then the release for h; it may follow quick presses; afterwards the counters are zero |
| TouchGestures.ReleaseFindsGreatest | earbud/src/peripherals/touchpad_psoc4000s.c:419-435 | a release sends its own action and at most one UI message: that of the greatest mapped action not above it, down to the first release number |
| TouchGestures.DoubleHoldOf61IsSilent | earbud/src/peripherals/touchpad_psoc4000s.c:392-419 | a double press is released silently exactly after 61 seconds, whose number is the one for no action; a single press never |
| TouchGestures.RunsAreBounded | earbud/src/peripherals/touchpad_psoc4000s.c:440-594 | over every run, when a release message is handled before the next touch: the held counter stays at most 65 between messages, the press counter within eight bits, and at most one recognising timer runs, none while a release message waits |
| TouchGestures.TooLongResets | earbud/src/peripherals/touchpad_psoc4000s.c:543-558 | a 66th second sends its held action and resets the recogniser |
| TouchGestures.TooLongClicks | earbud/src/peripherals/touchpad_psoc4000s.c:514-594 | releasing after that sends no release action but one single click |
| TouchGestures.QuickPress | earbud/src/peripherals/touchpad_psoc4000s.c:440-594 | a press of less than a second counts as one more quick press and sends nothing but the raw actions |
| TouchNumbers.ClickNumbers | earbud/src/peripherals/touchpad_psoc4000s.c:369-436 | by numbers: k quick taps and silence announce the action k modulo 256 when that is 1 to 9; to announce is to send the action and after it the UI message of the first line of the table for it, if there is one |
| TouchNumbers.TapNumbers | earbud/src/peripherals/touchpad_psoc4000s.h:25-48 | touch data 0x20 and 0x21 announce the actions 23 and 24 |
| TouchNumbers.HoldIsAnnounced | adk/src/domains/sensor/touch/touch_config.h:16-111 | a hold of s seconds announces 0x20 + 1 to 0x20 + s after no quick press and 0x100 + 1 to 0x100 + s after one, and nothing after more; then its release: 0x80 + s, or 0x150 + s, or nothing for the double one of 61 seconds, with the greatest lower number from 0x80 on that has a line when it has none itself |
| TouchNumbers.SlideNumbers | earbud/src/peripherals/touchpad_psoc4000s.c:347-367 | touch data 4 and 5: a slide announces 19 or 20, after one quick tap 25 or 26, after more nothing; it ends the taps |
| TouchNumbers.PressTimes | earbud/src/peripherals/touchpad_psoc4000s.c:440-594 | a press starts 300 ms, then 700 ms; a release starts 400 ms |
| TouchNumbers.ClickWindow | earbud/src/peripherals/touchpad_psoc4000s.c:559-585 | the next tap counts on exactly when the gap is less than 400 ms |
| TouchNumbers.ResetTime | earbud/src/peripherals/touchpad_psoc4000s.c:543-558 | the 66th second starts the 50 ms of the reset line |
| TouchNumbers.NoiseEndsGestures | earbud/src/peripherals/touchpad_psoc4000s.c:440-511 | data that do not begin with FF 03 01 00 send nothing and end what was going on |
| TouchNumbers.ReleaseNeedsPress | earbud/src/peripherals/touchpad_psoc4000s.c:440-511 | letting go announces 24, and posts the release message only when the last touch data were those of touching |
| TouchNumbers.OtherDataWait | earbud/src/peripherals/touchpad_psoc4000s.c:440-511 | other touch data only stop the timers and are remembered |
| Touchpad.Pads.MapAndSendEvents | earbud/src/peripherals/touchpad_psoc4000s.c:249-274 | the search sends the action and the UI message of the first line for it, and the action alone only when asked to |
| Touchpad.Pads.MapTouchToLogicalInput | earbud/src/peripherals/touchpad_psoc4000s.c:276-294 | the first action mapped to the touch data is sent, or nothing |
| Touchpad.Pads.MapTapAndSwipe | earbud/src/peripherals/touchpad_psoc4000s.c:347-367 | one tap and a slide is its own action; more taps and a slide are dropped |
| Touchpad.Pads.FindRelease | earbud/src/peripherals/touchpad_psoc4000s.c:424-434 | the downward search stops at the first action with a message |
| Touchpad.Pads.MapTouchTimer | earbud/src/peripherals/touchpad_psoc4000s.c:369-436 | hold, release and click actions for single and double presses |
| Touchpad.Pads.HandleTouchData | earbud/src/peripherals/touchpad_psoc4000s.c:440-511 | one interrupt: timers, counters and the posted release message; the bounds of RunsAreBounded are kept, as by the other handlers |
| Touchpad.Pads.HandleHeldRelease | earbud/src/peripherals/touchpad_psoc4000s.c:559-576 | a release after a hold sends the release and clears; else the press is counted |
| Touchpad.Pads.HandleHeldTimer | earbud/src/peripherals/touchpad_psoc4000s.c:543-558 | a second is counted and sent, up to the supported time |
| Touchpad.Pads.HandleClickTimer | earbud/src/peripherals/touchpad_psoc4000s.c:577-585 | the click action for the presses counted |
| Touchpad.Pads.ResetSensor | earbud/src/peripherals/touchpad_psoc4000s.c:314-344 | counters and timers are cleared; with hold, nothing else is started |
| Touchpad.Pads.PassMillisecond | earbud/src/peripherals/touchpad_psoc4000s.c:514-594 | the timers that run out are handled in the specified order |
| Thermistor.ToDegreesCelsius | earbud/src/peripherals/thermistor.c:49-94 | the bidirectional loop finds, for a table that never rises, what a plain scan finds, whatever the previous temperature |
| Thermistor.HintIrrelevantExactly | earbud/src/peripherals/thermistor.c:49-94 | the hinted search agrees with the plain scan for all readings and hints exactly when the table never rises |
| Thermistor.HintIsIrrelevant | earbud/src/peripherals/thermistor.c:49-94 | for each reading and hint, in a table that never rises |
| Thermistor.RoundTrip | earbud/src/peripherals/thermistor.c:27-94 | to millivolts and back is the clamped temperature for every temperature exactly when the table strictly falls |
| Thermistor.Antitone | earbud/src/peripherals/thermistor.c:49-94 | a higher voltage never gives a higher temperature |
| Thermistor.Clamp | earbud/src/peripherals/thermistor.c:27-32 | the result is within the table, and unchanged if it was |
| Thermistor.RepositoryTablesRoundTrip | earbud/src/peripherals/thermistor.c:34-94 | with the tables of the repository every temperature from -40 to 85 degrees is measured back exactly |

## Left out

- Marshal library: objects with pointers, shared members, dynamic arrays and disambiguators, and its skipping of an
  object with the same address and type as an earlier one; clients are taken to supply distinct objects.
- HandoverApp.Handover.Unmarshal: unfinished copies, which the unmarshaller allocated and then read again from the next
  buffer, are never released by the code; the model keeps them with the device, and
  `HandoverOnce.LeftBehind` says how many stay behind.
- Handover: the veto, which only asks clients, and 16-bit buffer sizes, which the model leaves unbounded.
- ImageCrc.AddPayload: takes what `int(text, 16)` of Python accepts besides plain digits (a sign, blanks, underscores, a
  0x prefix) for failures; no tool of the repository writes such records.
- SRecord.Checksum: the same.
- SRecord.MakeS3: the same.
- Resize.ResizeLines: the same, and `rstrip` strips only ASCII white space.
- DfuHeader.BuildDfu: the same; and lines are taken to end with a line break in the source's files, so that writing does
  not join two of them.
- ImageCrc.CalculateCrc32: the same about `int(text, 16)`; and it requires an even number of payload
  characters, because on an odd number the padding loop of the source never ends.
- DfuSender.Sender.Iterate: the serial port is a list of sent indices, a timeout is an input; the option byte of the
  first command and the printed progress are not modelled.
- dfu.py and build.py: files, arguments and subprocesses; a file is the list of its lines. `build_image` only joins
  files and is not part of this model.
- EarbudSm.Machine.HandleMessage: the messages of rules, audio, links to the peer, user interface and timers that do not
  touch the state, the lock, the physical state or the idle timers are absent.
- State machine: rules, topology, pairing and DFU libraries; DFU timers and the dynamic-role lock; the flags for
  restarting pairing and for a peer that was pairing, and the prohibition of handset connections, which depend on the
  ordering of messages from modules that are not part of this model; UI contexts, LEDs and the messages to the peer; the
  production test mode, which the default build does not compile.
- State machine: the rate-limit timers of the physical state module; after registration each change is one indication.
- TimerHandover.Owner.Marshal: the answer of MessagePendingFirst is taken as the milliseconds to go.
- Touch: I2C and PIO set-up, enabling and disabling, the first touch sensor; the reset line is only its timer.
- Thermistor: measuring, the reference voltage and its 16-bit product; the int8 type, which the clamp keeps in range.
