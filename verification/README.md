# Verification model of the ESP32 GoPro CAN-bus controller

The firmware keeps up to four GoPro cameras connected over BLE, starts and stops them on CAN frames from a data
logger, and reports their state back on CAN. It is a set of event handlers joined by callbacks. This project models
the handlers and proves what holds over every order of events: what the slot table and NVS keep, that a remembered
camera is never silently abandoned, when a start command may be repeated, and that protocol messages survive
fragmentation, interleaving and decoding.

`dafny verify dfyconfig.toml` checks everything (Dafny 4.11).

## How it is built

Each source component has a specification on values (datatypes and functions) and, where the source updates static
state or loops, methods with the source's own control flow that are proved equal to that specification. Lemmas about
the specification then quantify over all inputs and all runs: invariants, round trips and whole-run results, and for
every event an effect law that says, in the terms of the state alone, what it changes and what it leaves as it was.

| file | models | main results |
|---|---|---|
| `Base.dfy` | C integer types and constants | |
| `ProtobufWire.dfy` | varints and field sizes of `presets.c` | a varint reads back whatever follows it |
| `PresetDecoder.dfy` | the three nested walks of `presets.c` | an id found in a prefix stays the answer |
| `PresetMessage.dfy` | NotifyPresetStatus and Load Preset | decoding inverts encoding for every message |
| `Reassembly.dfy` | fragment reassembly in `presets.c` and `query.c` | connections do not disturb each other; any cut completes exactly at its end |
| `ReassemblyTable.dfy` | the static context arrays of both | the arrays refine the map |
| `QueryResponses.dfy` | routing and status walk of `notify.c` | cut and single-packet responses give the same preset |
| `HardwareInfo.dfy` | GetHardwareInfo in `query.c` | fields survive any cut and come back clipped |
| `GattWriteRing.dfy` | `ble_gatt_write.c` | a FIFO exactly when posts follow reservations |
| `Cameras.dfy` | `camera_manager.c`, `pairing.c`, `control.c` on values | |
| `CameraManager.dfy` | the same on the slot array | every method equals its specification |
| `StartGuard.dfy` | the start-command guard | start writes are separated |
| `Recovery.dfy` | re-sending the start command | a camera that stopped is sent exactly one start, whatever else happens |
| `Lifecycle.dfy` | all events on slots, contexts, NVS and links | the invariant over every run; a reboot loses nothing |
| `SlotEffects.dfy` | every event of `Lifecycle.dfy` | what each does to slots, contexts, NVS and CAN bytes, and to no other |
| `Supervision.dfy` | `ble_connect.c`, `ble_scan.c`, `ble_init.c` over a radio stub | nobody is abandoned, exactly under a start condition; boot chain order |
| `RadioEffects.dfy` | every event of `Supervision.dfy` | which peer the radio turns to; a failed encryption ends in a reconnect to that camera |
| `BleCore.dfy` | the same on static state | every handler equals its specification, and every event keeps what it guarantees |
| `Discovery.dfy` | `gatt.c` on one connection | what `gatt_ready` guarantees, and exactly when it comes |
| `DiscoveryEffects.dfy` | the stack's return codes in `gatt.c` | what is granted is waited for, what is refused is passed over |
| `CanManager.dfy` | `can_manager.c` and the glue of `main.c` | logging state is a function of the frames; wanted recording follows it end to end |

## Assumptions

- Handlers are atomic. The exception is the GATT write ring, where reserving a slot and posting its event are two
  steps. FIFO needs posts in reservation order (one producer task gives that); the source has several producers, and
  `OutOfOrderLosesAWrite` shows the run that goes wrong without it.
- NimBLE's GAP is a stub with one radio: idle, scanning or connecting. A connect may always fail; it fails unless the
  radio is idle and the peer not linked. A scan starts from idle. A cancelled connect still ends in a CONNECT event.
  There is one link per peer, on a handle not in use.
- NVS writes succeed, and a driver context can always be allocated.
- The clock does not go back.
- Notifications are delivered in order and are 1 to 512 bytes long, as `connection_event_cb` enforces. At most four
  links are live at a time.
- The C bit operations on non-overlapping bits are written as additions.

## Findings

- Length prefixes: the two nested-message branches compare a length after a cast to `int`. When the cast is negative
  the source's index moves backwards; the model stops with `NegativeLength` there. `NegativeIff` says exactly when the
  walk over received bytes gets that far and `GroupNegativeIff` the same within a group. `SafeBytes` gives a test on
  the bytes, and shows that no message of less than six bytes does; `NegativeLengthExample` is one of six.
  `DecodeInvertsEncode` shows that no encoding of a message below 2^31 bytes is affected.
- Boot with remembered cameras but no stored bond leaves the radio idle (`ble_init.c:49-55`): `NeverAbandonsIff` has
  this as the exact exception, `NoBondNoSearch` is such a boot.
- A refused first CCCD write, or no notifying characteristic at all, ends discovery for good on that connection;
  later refusals are skipped. `ReadyIff` is the exact condition, `RefusedFirstWriteExample` a failing connection.
- The repository's README says the tick retries any camera not yet in the desired state. The code only re-sends start;
  `TickSendsExactly` follows the code, and `StopIsNotRetried` is what the documentation does not say.
- Emptying a slot while logging is on clears what that slot wants until the next change to a known logging state is
  announced; further frames that say the same do not restore it. `WantedFollowsFrames` carries this as `emptied`, and
  `EmptiedSlotForgets` is such a run.

## Model

| member | source | states |
|---|---|---|
| ProtobufWire.PbReadVarint | components/open_gopro_ble/presets.c:130-144 | the loop returns the value modulo 2^64 and the size of the varint at the front, or nothing if none ends within ten bytes |
| ProtobufWire.ReadVarintMeaning | components/open_gopro_ble/presets.c:126-144 | reading succeeds exactly when the bytes start with a varint, and then gives its base-128 value modulo 2^64 |
| ProtobufWire.VarintRoundTrip | components/open_gopro_ble/presets.c:126-144 | an encoded 64-bit value reads back with exactly its size, whatever follows |
| ProtobufWire.ValueSizePrefix | components/open_gopro_ble/presets.c:151-171 | a field that fits has the same size in every longer buffer |
| PresetDecoder.FirstPresetId | components/open_gopro_ble/presets.c:216-241 | the inner loop finds the first id of a preset, or none |
| PresetDecoder.ParsePresetGroup | components/open_gopro_ble/presets.c:181-257 | the group loop yields the first preset id exactly when the last group id is the asked one |
| PresetDecoder.FindFirstVideoPresetId | components/open_gopro_ble/presets.c:264-301 | the message loop equals the recursive search, which stops inside the buffer on every input |
| PresetDecoder.FoundIsStable | components/open_gopro_ble/presets.c:264-301 | for arbitrary bytes, an id found in a prefix is the answer for every extension |
| PresetDecoder.NegativeIff | components/open_gopro_ble/presets.c:264-301 | for every byte string, the message walk would move backwards exactly when complete turns without an id lead it to a length prefix, of a group or of a preset in it, with bit 31 set |
| PresetDecoder.GroupNegativeIff | components/open_gopro_ble/presets.c:181-257 | the same one level down, for the walk over one group from any state of knowledge |
| PresetDecoder.SafeBytes | components/open_gopro_ble/presets.c:130-144 | a message without four successive continuation bytes after its first byte, or of less than six bytes, is walked forwards only |
| PresetDecoder.NegativeLengthExample | components/open_gopro_ble/presets.c:278-291 | a message of six bytes, the least possible, on which the walk meets a negative length |
| PresetMessage.BodySkips | components/open_gopro_ble/presets.c:151-171 | the size of a field's value is exactly what its sender wrote, whatever follows, for wire types 0, 1, 2 and 5 |
| PresetMessage.FieldReads | components/open_gopro_ble/presets.c:151-176 | any field of wire type 0, 1, 2 or 5 reads back its tag and is skipped whole |
| PresetMessage.PresetRoundTrip | components/open_gopro_ble/presets.c:220-241 | decoding an encoded preset gives its first id, unknown fields notwithstanding |
| PresetMessage.GroupRoundTrip | components/open_gopro_ble/presets.c:181-257 | decoding an encoded group gives its last group id and its first id-bearing preset |
| PresetMessage.DecodeInvertsEncode | components/open_gopro_ble/presets.c:259-301 | for every message, decoding its encoding gives the first id-bearing preset of the first Video group that has one, or nothing |
| PresetMessage.DecodesUpToMalformed | components/open_gopro_ble/presets.c:264-301 | bytes in which no field can be read end the message walk; the message before them is decoded as if they were not there |
| PresetMessage.NestedUpToMalformed | components/open_gopro_ble/presets.c:181-257 | the same within a group and within a preset |
| PresetMessage.LoadPresetRoundTrip | components/open_gopro_ble/presets.c:307-330 | the seven-byte packet has consistent lengths and its big-endian parameter is the int32 id again |
| Reassembly.ContextsNeverRunOut | components/open_gopro_ble/presets.c:96-120 | over every run from an empty table, contexts belong to live connections and a live connection that asks for one gets it |
| Reassembly.Isolation | components/open_gopro_ble/presets.c:443-528 | for arbitrary packets on up to four live links, each connection completes what a private reassembler would complete |
| Reassembly.CutCompletes | components/open_gopro_ble/presets.c:448-500 | a message cut in any way completes on its last packet, whatever the context held before |
| Reassembly.StreamCompletes | components/open_gopro_ble/presets.c:443-528 | in any interleaving, a cut message completes exactly on its own last packet with exactly its own bytes |
| Reassembly.PresetsStart | components/open_gopro_ble/presets.c:448-477 | a first fragment replaces what was there, completes at once if all is there, and is given up if longer than 1024 bytes |
| Reassembly.HardwareInfoStart | components/open_gopro_ble/query.c:344-444 | the same for GetHardwareInfo responses, of which 256 bytes are kept; other commands and error statuses are ignored |
| Reassembly.HardwareInfoAtOnce | components/open_gopro_ble/query.c:400-408 | a response in one packet is handed over whole and leaves the context alone |
| Reassembly.ContinuationAdds | components/open_gopro_ble/presets.c:483-500 | a continuation adds what fits, and completes the message exactly when its length is reached |
| Reassembly.StrayPacketsPass | components/open_gopro_ble/query.c:309-319 | a continuation nobody waits for, and packets too short for their kind, change and complete nothing |
| Reassembly.ViewFull | components/open_gopro_ble/presets.c:102-110 | the map is full exactly when no context is free |
| ReassemblyTable.RxTable.FindCtx | components/open_gopro_ble/presets.c:86-94 | the loop finds the context in use for the handle, or none |
| ReassemblyTable.RxTable.AllocCtx | components/open_gopro_ble/presets.c:96-111 | the handle's own context, else a free one claimed and zeroed; refused exactly when the table is full |
| ReassemblyTable.RxTable.FreeAll | components/open_gopro_ble/presets.c:113-120 | takes the handle, and nothing else, out of the table |
| ReassemblyTable.RxTable.FreeFound | components/open_gopro_ble/query.c:90-96 | takes the handle, and nothing else, out of the table |
| ReassemblyTable.RxTable.HandleQueryFragment | components/open_gopro_ble/presets.c:443-528 | the array handler refines one delivery of the abstract machine |
| ReassemblyTable.RxTable.HandleCmdResponse | components/open_gopro_ble/query.c:298-450 | the array handler refines one delivery of the abstract machine for GetHardwareInfo |
| QueryResponses.CutIsRouted | components/open_gopro_ble/notify.c:46-80 | every packet of a cut preset response goes to the reassembler |
| QueryResponses.PresetStream | components/open_gopro_ble/presets.c:443-528 | end to end: any cut in any interleaving completes on its last fragment and chooses the id the message means |
| QueryResponses.SinglePacketAgrees | components/open_gopro_ble/notify.c:64-74 | a response that fits one packet takes the direct path to the same id |
| QueryResponses.StatusIsRouted | components/open_gopro_ble/notify.c:82-107 | a successful status response reaches the walk with the flags the camera packed |
| QueryResponses.OthersAreIgnored | components/open_gopro_ble/notify.c:64-100 | error statuses, other queries, other preset actions and packets too short are ignored |
| QueryResponses.OnEncodingFlag | components/open_gopro_ble/notify.c:118-142 | a status flag changes status and guard as one observation |
| QueryResponses.WalkStatus | components/open_gopro_ble/notify.c:107-146 | the TLV loop applies, in order, every encoding flag up to a truncated entry |
| QueryResponses.FlagsOfEntries | components/open_gopro_ble/notify.c:107-146 | the flags seen are exactly those the camera packed, whatever other entries surround them |
| HardwareInfo.ParseLvString | components/open_gopro_ble/query.c:114-128 | consumes a length-value field and copies it clipped to the buffer |
| HardwareInfo.ParseLvUint | components/open_gopro_ble/query.c:136-151 | consumes a field of at most four bytes and gives its big-endian value |
| HardwareInfo.ParseHwInfo | components/open_gopro_ble/query.c:158-228 | the field-by-field parse stops at the first missing field with what it has |
| HardwareInfo.ParseInvertsEncode | components/open_gopro_ble/query.c:158-216 | seven encoded fields come back, strings clipped to their buffers, consuming exactly the encoding |
| HardwareInfo.CutShortReads | components/open_gopro_ble/query.c:158-228 | a response that ends early or inside a field gives exactly its complete fields, the others empty, and consumes exactly those |
| HardwareInfo.ClipMeans | components/open_gopro_ble/query.c:161-165 | strings keep up to 31 or 23 bytes from the front |
| HardwareInfo.ResponseParses | components/open_gopro_ble/query.c:334-339 | a complete response, header included, parses to the fields sent |
| HardwareInfo.HardwareInfoStream | components/open_gopro_ble/query.c:298-450 | a response cut in any way, in any interleaving, is reassembled exactly |
| GattWriteRing.FifoIffInOrder | components/ble_core/ble_gatt_write.c:41-93 | over every interleaving, the ring stays a bounded FIFO exactly when posts follow reservation order |
| GattWriteRing.PostKeepsFifoIff | components/ble_core/ble_gatt_write.c:86-90 | a post keeps the FIFO exactly when it takes the oldest reservation |
| GattWriteRing.InOrderRunsDeliver | components/ble_core/ble_gatt_write.c:41-93 | in order: deliveries are a prefix of the accepted writes, live slots are distinct, an idle ring has delivered all |
| GattWriteRing.AcceptsWhileRoom | components/ble_core/ble_gatt_write.c:60-86 | a write is accepted exactly if it has at most 20 bytes and fewer than four accepted ones are undelivered |
| GattWriteRing.Drains | components/ble_core/ble_gatt_write.c:41-58 | from every in-order state the ring's own steps deliver every accepted write |
| GattWriteRing.OutOfOrderLosesAWrite | components/ble_core/ble_gatt_write.c:69-90 | a run in which the second producer posts first and an accepted write is overwritten |
| GattWriteRing.WriteQueue.ReserveSlot | components/ble_core/ble_gatt_write.c:60-86 | refuses oversized payloads and a full ring, otherwise fills and reserves the head slot |
| GattWriteRing.WriteQueue.PostSlot | components/ble_core/ble_gatt_write.c:88-90 | queues the producer's own slot |
| GattWriteRing.WriteQueue.GattWrite | components/ble_core/ble_gatt_write.c:60-93 | alone among producers, appends the write to the FIFO exactly when size and room allow |
| GattWriteRing.WriteQueue.WriteEvent | components/ble_core/ble_gatt_write.c:41-58 | delivers what the event's slot holds and advances the tail |
| Cameras.HasDisconnectedMeaning | components/camera_manager/camera_manager.c:564-567 | remembered exceeds connected exactly when some configured slot has no handle |
| CameraManager.SlotTable.constructor | components/camera_manager/camera_manager.c:302-312 | every slot is loaded from its record, disconnected, recording not wanted |
| CameraManager.SlotTable.LoadSlot | components/camera_manager/camera_manager.c:113-171 | copies the record and creates a context only for a registered type |
| CameraManager.SlotTable.FindByAddr | components/camera_manager/camera_manager.c:314-323 | the first configured slot with the address, or none |
| CameraManager.SlotTable.FindFreeSlot | components/camera_manager/camera_manager.c:325-331 | the first unconfigured slot, or none |
| CameraManager.SlotTable.FindSlotByHandle | components/camera_manager/camera_manager.c:421-430 | the first slot with the handle, or none |
| CameraManager.SlotTable.HasDisconnectedCameras | components/camera_manager/camera_manager.c:333-352 | the two counting loops decide whether some configured slot has no handle |
| CameraManager.SlotTable.NotifySlotState | components/camera_manager/camera_manager.c:102-107 | the slot's CAN byte becomes its mapped status, the others stay |
| CameraManager.SlotTable.OnConnected | components/camera_manager/camera_manager.c:354-360 | only the slot's handle and CAN byte change |
| CameraManager.SlotTable.OnDisconnected | components/camera_manager/camera_manager.c:362-373 | the first slot with the handle loses handle and readiness; no other slot changes |
| CameraManager.SlotTable.SetGattReady | components/camera_manager/camera_manager.c:375-381 | only the slot's readiness and CAN byte change |
| CameraManager.SlotTable.RegisterNew | components/camera_manager/camera_manager.c:392-419 | a known address keeps its slot; otherwise the first free slot is filled; otherwise nothing changes |
| CameraManager.SlotTable.SaveSlot | components/camera_manager/camera_manager.c:173-207 | the slot's record is in NVS, the others stay |
| CameraManager.SlotTable.RemoveSlot | components/camera_manager/camera_manager.c:209-241 | the slot is blank and its record gone |
| CameraManager.SlotTable.Tick | components/camera_manager/camera_manager.c:247-270 | start is re-sent where wanted and not seen recording, then every CAN byte is refreshed |
| CameraManager.SlotTable.SetDesiredRecording | components/camera_manager/camera_manager.c:486-491 | every slot, configured or not, wants the given state |
| CameraManager.SlotTable.StartRecordingAll | components/camera_manager/camera_manager.c:493-508 | every reachable slot is started through its driver, the others are untouched |
| CameraManager.SlotTable.StopRecordingAll | components/camera_manager/camera_manager.c:510-525 | every reachable slot is stopped through its driver, the others are untouched |
| CameraManager.SlotTable.SetRecordingSlot | components/camera_manager/camera_manager.c:527-546 | a configured slot wants the state, and is commanded at once if reachable |
| CameraManager.SlotTable.StartRecording | components/open_gopro_ble/control.c:61-90 | succeeds, and raises the guard, exactly with a handle, the guard down and the write accepted |
| CameraManager.SlotTable.StopRecording | components/open_gopro_ble/control.c:92-113 | lowers the guard whether or not the write is accepted, but not without a handle |
| CameraManager.SlotTable.OnConnectedCb | components/open_gopro_ble/pairing.c:11-26 | slot and driver context of a known address take the handle |
| CameraManager.SlotTable.OnEncryptedCb | components/open_gopro_ble/pairing.c:28-75 | an unknown peer is registered and saved if a slot is free; slot and context carry the handle |
| CameraManager.SlotTable.OnDisconnectedCb | components/open_gopro_ble/pairing.c:77-102 | the context is reset and the slot disconnected |
| CameraManager.SlotTable.HandleStatusResponse | components/open_gopro_ble/notify.c:107-147 | the slot's context takes every flag of the response, behind the ready gate |
| CameraManager.SlotTable.OnLoggingStateChanged | main/main.c:68-111 | with auto-control on, a known state is wanted everywhere and commanded; unknown changes nothing |
| CameraManager.SlotTable.FinishDiscovery | components/open_gopro_ble/gatt.c:155-188 | the slot's context takes the handles, and the slot is ready if discovery was complete |
| CameraManager.SlotTable.Handle | components/camera_manager/camera_manager.c:209-270 | every timer, CAN, web and discovery event moves the array as the specification says and keeps the table invariant, whatever the live links |
| StartGuard.StartKeeps | components/open_gopro_ble/control.c:61-90 | a start write is only sent when none is in flight, and the flag says so |
| StartGuard.WalkKeeps | components/open_gopro_ble/notify.c:117-143 | a status walk lowers the guard exactly at changes into and out of recording |
| StartGuard.TickSendsExactly | components/camera_manager/camera_manager.c:249-263 | a tick sends one start exactly when wanted, reachable, not seen recording, none in flight and accepted; it never stops |
| StartGuard.TicksSendOnce | components/camera_manager/camera_manager.c:247-263 | any number of ticks without a status change send at most one start, with the first accepted write |
| StartGuard.StopIsNotRetried | components/camera_manager/camera_manager.c:256-262 | a camera that should not record is left as it is by any number of ticks, even if it still records |
| Recovery.SendsExactlyOne | components/camera_manager/camera_manager.c:247-263 | from any reachable state in which a camera needs a start, any run that neither stops it, sees it recording nor touches its link, slot or handles sends it exactly one start if a tick or start call is accepted, and none otherwise |
| Recovery.Recovers | components/open_gopro_ble/notify.c:131-143 | the same from a status response, with any flags, that ends a wanted camera's recording |
| Lifecycle.HandlesDistinct | components/camera_manager/camera_manager.c:354-430 | non-NONE handles are distinct, and looking up by handle and by peer address agree |
| Lifecycle.StepKeeps | components/open_gopro_ble/pairing.c:11-102 | every event keeps: distinct addresses, handles that are the live link of the slot's peer, ready only when connected, contexts carrying the slot's handle, NVS mirroring RAM, the guard matching history |
| Lifecycle.RunKeeps | components/camera_manager/camera_manager.c:209-241 | the invariant holds after every run of events |
| Lifecycle.BootInv | components/camera_manager/camera_manager.c:302-312 | it holds after boot from any NVS contents a run can leave |
| Lifecycle.StartsAreSeparated | components/open_gopro_ble/control.c:61-113 | in every run from boot, between two start writes on one slot there is a status change into or out of recording, a stop, a disconnect or a new driver context |
| Lifecycle.RebootMatches | components/camera_manager/camera_manager.c:113-241 | at any point, re-running init from NVS gives the same address-to-slot map, names and types, disconnected and with recording not wanted |
| Lifecycle.ViewsAgree | components/camera_manager/camera_manager.c:450-484 | after every tick slot info, derived status and CAN byte agree, and a disconnected camera is reported exactly when some CAN byte says so |
| SlotEffects.NewCameraIsRemembered | components/open_gopro_ble/pairing.c:28-70 | an encrypted link to an unknown peer takes the first free slot: address, handle, GoPro type, first-pairing context, placeholder name and NVS record; every other slot and record is unchanged, and a reboot finds the address |
| SlotEffects.OtherwiseNothingChanges | components/open_gopro_ble/pairing.c:43-63 | for a known peer, or with no free slot, encryption changes nothing |
| SlotEffects.RemovedIsGone | components/camera_manager/camera_manager.c:209-241 | after removal the slot is empty, its record gone, the address not found now or after a reboot, and all else unchanged |
| SlotEffects.Reloaded | components/camera_manager/camera_manager.c:113-171 | init makes of a record exactly that camera, disconnected, with a fresh context exactly for a GoPro |
| SlotEffects.LinkConnects | components/open_gopro_ble/pairing.c:11-26 | a link to a remembered camera sets handle, context handle and CAN byte of its slot and nothing else |
| SlotEffects.UnlinkDisconnects | components/open_gopro_ble/pairing.c:77-102 | a lost link resets handle, readiness, status, guard and discovered handles of its slot and nothing else, and the CAN byte says disconnected |
| SlotEffects.DiscoveryArrives | components/open_gopro_ble/gatt.c:155-188 | the discovered handles and readiness arrive at the slot of the link, and nowhere else |
| SlotEffects.ResponseIsSeen | components/open_gopro_ble/notify.c:107-147 | after a status response the status is its last flag and the guard is up exactly if it was and recording neither began nor ended; nothing else changes |
| SlotEffects.ResponseIsRecorded | components/open_gopro_ble/notify.c:122-143 | the history gains a chain of status changes from the old status to the new one |
| SlotEffects.StatusPacketIsSeen | components/open_gopro_ble/notify.c:82-147 | from the bytes of a status response to the slot: the last encoding entry is the status |
| SlotEffects.EarlyResponseIsDropped | components/open_gopro_ble/notify.c:193-194 | before the camera is ready a status response changes nothing |
| SlotEffects.EverySlotIsStopped | main/main.c:92-102 | when logging ends or all cameras are switched off, every slot no longer wants recording, and each that can be commanded is sent exactly one stop and has its guard down |
| SlotEffects.EverySlotIsStarted | main/main.c:76-90 | when logging begins or all cameras are switched on, every slot wants recording, and each that can be commanded, with its guard down and the write accepted, is sent exactly one start |
| SlotEffects.OneSlotIsSwitched | components/camera_manager/camera_manager.c:527-546 | the command for one slot switches that camera, if configured, and no other |
| SlotEffects.OtherwiseLoggingIsIgnored | main/main.c:68-73 | without auto-control, and for the unknown state, logging changes nothing |
| SlotEffects.TickStartsAndShows | components/camera_manager/camera_manager.c:247-270 | a tick starts exactly the cameras that want and lack recording and can be commanded, and every CAN byte then says 0 to 3 as its slot is |
| Supervision.ReconnectNextKeeps | components/ble_core/ble_connect.c:100-133 | from an idle radio the chain step keeps the invariant and leaves nobody abandoned |
| Supervision.StepKeeps | components/ble_core/ble_connect.c:278-428 | every event keeps: if a remembered camera is disconnected, the radio is busy or a backoff is pending; and a stale connecting flag or an unscheduled backoff never arises |
| Supervision.NeverAbandonsIff | components/ble_core/ble_init.c:40-56 | over every run after on_sync, with connects free to fail, this holds throughout exactly when there was a bond or no remembered camera |
| Supervision.NoBondNoSearch | components/ble_core/ble_init.c:40-56 | one camera in NVS and no bond: after on_sync it is disconnected and nobody looks for it |
| Supervision.ScanFindsCamera | components/ble_core/ble_scan.c:153-220 | while scanning, an advertisement of a remembered unconnected camera always becomes a connect, or the scan goes on |
| Supervision.CollectedPeers | components/ble_core/ble_init.c:22-38 | the pending list is duplicate-free, bonded, and complete up to its size |
| Supervision.BootChain | components/ble_core/ble_connect.c:100-133 | over any events the chain attempts bonded peers only, each at most once, in list order |
| Supervision.ChainGoesOn | components/ble_core/ble_connect.c:100-133 | a step of the chain attempts exactly the unlinked peers among the entries it passes, in order, and ends connecting to the last of them, or exhausted and scanning exactly if a camera is missing |
| Supervision.AttemptGivesWay | components/ble_core/ble_connect.c:282-325 | when an attempt ends, well or badly and to whomever, the chain connects to a later entry, or is exhausted and the radio scans exactly if a camera is missing |
| Supervision.ScansAfterAttempts | components/ble_core/ble_connect.c:100-133 | in any run, after as many ended attempts as the chain had entries left, the end of every further one leaves the radio scanning exactly if a camera is missing |
| Supervision.ExhaustedChainRests | components/ble_core/ble_connect.c:100-106 | an exhausted chain attempts nothing any more, whatever happens |
| RadioEffects.FailedEncryptionReconnects | components/ble_core/ble_connect.c:339-428 | whole runs: encryption fails on a remembered camera's link, the link goes down later; no connect is started, a backoff stays pending with its timer or event on the way, and its event connects to that very camera |
| RadioEffects.DisconnectReconnects | components/ble_core/ble_connect.c:386-428 | without a failed encryption a remembered peer is connected to again at once, or scanned for if refused; an attempt in progress goes on |
| RadioEffects.StrangersDisconnectScans | components/ble_core/ble_connect.c:386-400 | after a stranger's disconnect an idle radio scans exactly if a camera is missing |
| RadioEffects.BackoffReconnects | components/ble_core/ble_connect.c:38-53 | the backoff event connects to the noted peer if it can, else scans, and is used up |
| RadioEffects.WorldMoves | components/ble_core/ble_connect.c:282-384 | which event the layer above is told by each event here |
| RadioEffects.AttemptConnectsNext | components/ble_core/ble_connect.c:100-133 | when an attempt ends the chain connects to the next entry without a link that the stack takes |
| RadioEffects.AttemptRunsOut | components/ble_core/ble_connect.c:100-133 | if it takes none, the chain is exhausted and the radio scans exactly if a camera is missing |
| RadioEffects.SyncConnectsFirst | components/ble_core/ble_init.c:40-56 | on_sync connects to the first bonded peer the stack takes |
| RadioEffects.CollectedInOrder | components/ble_core/ble_init.c:22-38 | bonded peers are taken in the order of the store |
| RadioEffects.AdvertisementConnects | components/ble_core/ble_scan.c:153-220 | an advertisement of a remembered, unconnected camera becomes a connect to it, or the scan goes on |
| RadioEffects.OtherAdvertisementsPass | components/ble_core/ble_scan.c:153-200 | any other advertisement changes nothing |
| RadioEffects.PairingConnects | components/ble_core/ble_scan.c:110-131 | a pairing request connects to the requested peer, or lets the radio scan if a camera is missing; while connecting it is ignored |
| RadioEffects.DiscoveryScans | components/ble_core/ble_scan.c:47-67 | user discovery takes the radio unless it is connecting |
| RadioEffects.DiscoveryEnds | components/ble_core/ble_scan.c:97-101 | when it is stopped a background scan follows exactly if a camera is missing |
| RadioEffects.RemovalCancels | components/ble_core/ble_connect.c:238-261 | removing a bond cancels an attempt in progress |
| BleCore.Boot | components/ble_core/ble_init.c:40-56 | power-on to on_sync on the static state: the invariant holds, and nobody is abandoned exactly if there is a bond or no remembered camera |
| BleCore.Core.constructor | components/ble_core/ble_init.c:40-56 | over a manager loaded from valid NVS, the static state is what on_sync expects |
| BleCore.Core.Handle | components/ble_core/ble_connect.c:278-430 | every event, status bytes included, moves the static state as the specification says, and keeps the table invariant, the radio invariant and that nobody is abandoned |
| BleCore.Core.Work | components/ble_core/ble_connect.c:278-430 | the same over any sequence of events: the static state goes through the specified run and is safe throughout |
| BleCore.Core.ReconnectNext | components/ble_core/ble_connect.c:100-133 | the recursive chain step refines its specification |
| BleCore.Core.OnConnectOk | components/ble_core/ble_connect.c:282-325 | a new link is reported above and the chain advances |
| BleCore.Core.OnConnectFailed | components/ble_core/ble_connect.c:316-325 | a failed connect only advances the chain |
| BleCore.Core.OnEncrypted | components/ble_core/ble_connect.c:327-338 | an encrypted link is reported above, the radio stays as it is |
| BleCore.Core.OnEncryptionFailed | components/ble_core/ble_connect.c:339-361 | the peer is remembered for the backoff path |
| BleCore.Core.OnDisconnect | components/ble_core/ble_connect.c:373-429 | the link is gone above, then the reconnect decision follows |
| BleCore.Core.AfterDisconnect | components/ble_core/ble_connect.c:386-428 | scan if unknown, backoff after a failed encryption of the same peer, else connect or scan |
| BleCore.Core.OnBackoffEvent | components/ble_core/ble_connect.c:38-53 | a pending backoff becomes a connect or a scan, otherwise nothing |
| BleCore.Core.ConnectByAddr | components/ble_core/ble_scan.c:110-131 | a pairing request replaces a scan by a connect unless one is in progress |
| BleCore.Core.OnAdvertisement | components/ble_core/ble_scan.c:153-220 | known, unconnected and not connecting: connect, and scan again if refused |
| BleCore.Core.StartDiscovery | components/ble_core/ble_scan.c:47-67 | a discovery scan replaces a background scan |
| BleCore.Core.StopDiscovery | components/ble_core/ble_scan.c:97-101 | the discovery scan ends and a background scan follows if needed |
| BleCore.Core.CollectBondedPeer | components/ble_core/ble_init.c:22-38 | one peer is appended unless present or the list is full |
| BleCore.Core.Sync | components/ble_core/ble_init.c:40-56 | the list is rebuilt and the chain started if it is not empty |
| Discovery.ReadyMeans | components/open_gopro_ble/gatt.c:92-331 | over every run, ready comes at most once and only after each of the first sixteen services reported was scanned once in order, each of the first sixteen wanted subscriptions got one descriptor write in order, and handles were stored that are, for each GoPro number, that of the last characteristic reported with it |
| Discovery.WantedMeans | components/open_gopro_ble/gatt.c:253-274 | subscriptions are wanted exactly for 128-bit characteristics that notify or indicate, at the handle after the value, with 1 for notify and 2 for indicate only |
| DiscoveryEffects.ScanMovesOn | components/open_gopro_ble/gatt.c:277-297 | the next service the stack takes is scanned, those it refuses are passed over |
| DiscoveryEffects.ScanEnds | components/open_gopro_ble/gatt.c:200-229 | with no service left the first descriptor is written, and discovery goes on exactly if there is one and the stack takes it |
| DiscoveryEffects.WriteMovesOn | components/open_gopro_ble/gatt.c:136-150 | after a write, whatever its status, the next one the stack takes is awaited |
| DiscoveryEffects.WritesEnd | components/open_gopro_ble/gatt.c:151-197 | with none left all were attempted, handles are stored and the camera is ready, if it still has a slot |
| Discovery.StepKeeps | components/open_gopro_ble/gatt.c:120-331 | every callback keeps scans and writes ordered prefixes of what was recorded, and what was recorded the first sixteen reported |
| Discovery.FirstWriteDecides | components/open_gopro_ble/gatt.c:200-229 | a refused first write, or nothing to subscribe to, means never ready on this connection |
| Discovery.ReadyIff | components/open_gopro_ble/gatt.c:120-229 | for any mix of granted and refused writes on a link that stays up, once nothing is under way the camera is ready exactly if there was something to subscribe to, the first write was taken and the slot was found at the end |
| Discovery.RefusedFirstWriteExample | components/open_gopro_ble/gatt.c:222-228 | a whole connection with one characteristic: not ready when the first write is refused, ready when it is taken |
| Discovery.DiscoveryContext.StartCharDiscovery | components/open_gopro_ble/gatt.c:277-297 | the recursion over services refines its specification and terminates |
| Discovery.DiscoveryContext.StartCccdSubscriptions | components/open_gopro_ble/gatt.c:200-229 | the first descriptor write, or the early end |
| Discovery.DiscoveryContext.CccdWriteCb | components/open_gopro_ble/gatt.c:120-198 | the recursion over subscriptions refines its specification and terminates |
| Discovery.DiscoveryContext.ChrDiscCb | components/open_gopro_ble/gatt.c:253-274 | known handles are recorded, and a subscription is added for a notifying 128-bit characteristic while there is room |
| CanManager.LoggingRefinesHistory | components/can_manager/can_manager.c:297-358 | after every turn the state is unknown if no valid 0x600 frame came or the last is over 5 s old, else its byte 0; callbacks are exactly the changes |
| CanManager.LastKnownIsLastWord | components/can_manager/can_manager.c:154-182 | across timeouts, the last known state announced is the last valid frame's |
| CanManager.UtcRefinesHistory | components/can_manager/can_manager.c:194-242 | the UTC pair is the last valid frame's, announced exactly once |
| CanManager.WantedFollowsFrames | main/main.c:68-111 | end to end, over every run without web shutter or auto-control commands, a slot wants recording exactly when the last valid 0x600 frame said so and the slot was not emptied since the last change to a known logging state was announced |
| CanManager.FrameReachesCameras | main/main.c:68-111 | end to end: under auto-control a 0x600 frame that changes the logging state starts or stops every camera at once, one that repeats it does nothing |
| CanManager.CommandIsTaken | components/can_manager/can_manager.c:154-182 | a standard 0x600 frame with a byte sets the state, stamps the clock, and calls back exactly on change |
| CanManager.OthersAreNoCommands | components/can_manager/can_manager.c:335-358 | every other turn leaves the state to five seconds of silence |
| CanManager.UtcIsTaken | components/can_manager/can_manager.c:194-242 | a standard 0x602 frame of eight little-endian bytes from 2020 on is the UTC; only the first is announced, and other frames change nothing |
| CanManager.EmptiedSlotForgets | components/can_manager/can_manager.c:154-182 | a run in which a logging frame comes after the slot was emptied and the slot still does not want recording |
| CanManager.UtcClockRuns | components/can_manager/can_manager.c:425-446 | there is a UTC time exactly if a valid frame came, it is that frame's at its arrival, and it advances with the system timer to within a millisecond |
| CanManager.CanTask.HandleRcCommand | components/can_manager/can_manager.c:154-182 | stamps every valid frame and calls back on change only |
| CanManager.CanTask.HandleRcUtc | components/can_manager/can_manager.c:194-242 | takes a plausible epoch and announces the first one |
| CanManager.CanTask.RunTurn | components/can_manager/can_manager.c:297-358 | dispatch and timeout of one loop turn |
| CanManager.UnpackEpoch | components/can_manager/can_manager.c:201-205 | the byte loop is the little-endian value |

## Left out

- PresetDecoder.ParsePresetGroup: when a length cast to `int` is negative it stops and says so; where the source's index then goes, and what it reads there, is not modelled.
- PresetDecoder.FindFirstVideoPresetId: the same, for the length of a group; `NegativeIff` says exactly which inputs these are.
- BleCore.Core.OnEncryptionFailed: does not model the deletion of the stale bond, because the bond store belongs to the stack; it is read only at on_sync, as a parameter.
- Driver contexts live inside their slot as values; sharing a context through two pointers is not modelled (the source never does it), and a removed slot's context, which the source leaks, is gone.
- Reassembly buffers are fixed-length sequences inside the array of contexts; aliasing of the buffer is not modelled.
- GattWriteRing: what the NimBLE event queue does when an event is posted while still queued is foreign code and not modelled.
- Discovery: the table of discovery contexts is not modelled; one context belongs to one connection, with one encryption event per connection.
- Supervision: two cameras failing encryption at once share one flag and one address, so no per-camera backoff is claimed; the bond store itself, bond purging and pairing inside the stack are not modelled.
- Preset reassembly: the source ignores sequence numbers, so in-order delivery is assumed; 16-bit GPBS headers and Protobuf group wire types are not supported by the source.
- Model name, slot names beyond the placeholder, dispatch counts and logging: only displayed.
- Set Date/Time through `gmtime_r`, keep-alive and status-poll timers, Wi-Fi, HTTP and JSON: I/O or foreign code; their effects appear as events.
- The 0x601 broadcast rate: the source counts loop turns, which received frames shorten, so it is not a time guarantee.
- Preemption inside a handler: handlers are atomic, except the producers of the write ring.
