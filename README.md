# Mihashi MIDI bridge firmware: a Dafny model of its core

Mihashi is RP2350 firmware that bridges USB-MIDI between a USB Device port, which faces a computer, and a
USB Host port, which faces a MIDI peripheral. This project models the parts of the firmware that hold
state and logic, and proves properties of that model:

- **Combined bridge** (`main_dual.c`): one 256-slot ring of packets tagged with a direction. The drain
  task empties it, routing each packet by its tag and bumping the status counters. A single-device record
  is kept by the host mount/unmount callbacks.
- **Simple dual bridge** (`main_simple_dual.c`): two independent 16-slot rings whose slots carry a
  `valid` flag. The device receive callback fills one ring and counts every packet. The host task pings,
  takes at most one packet and shifts it out on a GPIO pin, least-significant bit first. The bridge task
  takes at most one packet per call.
- **MIDI processor** (`midi_processor.c`): a 64-slot message ring with `is_full`/`is_empty`, the
  status-nibble classifier, the forwarding filter over the USB-MIDI header byte (cable number and Code
  Index Number, section 4 of the USB Device Class Definition for MIDI Devices 1.0), the queue-then-drain
  packet handler, and the statistics.
- **Downstream device registry** (`usb_host.c`): a 4-slot table. Mount takes the first free slot,
  unmount finds the slot by address, and a counter tracks the active devices.
- **Test-note sender and echo** (`main_device_simple.c`): the Note On test packet every 3 s, whose note
  cycles 60..72. The echo callback counts received and sent packets.
- **String descriptors** (`usb_descriptors.c`): ASCII strings become UTF-16 string descriptors. The
  header word holds bLength and bDescriptorType (section 9.6.7 of the USB 2.0 specification).

## How the model is built

- Every file-level `static` buffer becomes a class whose fields are the C variables.
  - The array is a `const` field; the indices and counters are `var` fields.
  - `Contents()` is a ghost view of the queued entries, oldest first. It is defined once, in module
    `Ring` (`Window`), for all three rings.
  - Each method states its new state in terms of `old(Contents())`. The invariant each class keeps is
    its `Valid()` predicate.
- `uint32` counters wrap explicitly.
  - `Inc32` is C's `++`.
  - Counters changed by loops are stated as folds (`CountEach`, `HostToDeviceAfter`, `ForwardedAfter`,
    `SentAfter`).
  - Lemmas equate each fold with `k` wrapping increments (`Add32`) and show `Add32(x, k) == (x + k) % 2^32`.
  - The elapsed-time tests use C's wrapping unsigned subtraction (`Sub32`).
- Results of TinyUSB calls become parameters:
  - whether a write succeeded: `writeOk`, `writeResults`;
  - the packets a read loop delivers: `incoming`;
  - the level of the RX pin: `rxPinHigh`.
- `to_ms_since_boot` becomes a `now: uint32` parameter.
- GPIO output becomes the returned sequence of pin levels.
- Drain loops (`while (pop(&p)) dispatch(p);`) are methods with a loop.
  - One ghost predicate (`Drained`, `Processed`) states the loop invariant.
  - A one-round method (`DrainNext`, `ProcessNext`) carries the predicate from one round to the next.

Facts about the code that shape the model:

- A mount into a full table returns nothing and reports nothing (`firmware/mihashi/src/usb_host.c`
  lines 57-75; see Findings).
- The firmware has no overflow or undelivered counters. Dropped packets are only logged
  (`main_dual.c` line 100, `main_simple_dual.c` lines 67 and 239, `midi_processor.c` line 50).
- In `main_simple_dual.c` nothing calls `h2d_buffer_put` (defined at line 88), so the host-to-device
  ring never holds a packet. `mihashi_bridge_task` (lines 151-161), modelled as
  `SimpleBridge.BridgeTask`, therefore never writes anything in the firmware as it stands. The model
  adds no producer for that ring.
- `main_dual.c` counts a host-to-device packet whatever `tud_midi_packet_write` returns (lines 129-130).
- `main_dual.c` counts a device-to-host packet only while `host_device_addr > 0`, and never writes it
  (lines 118-126).
- Direction is a `uint8`: 0 means device-to-host, and any other value means host-to-device.
- A registry slot is free when its `connected` flag is false (`usb_host.c` line 59).

## Model

| member | source | states |
|---|---|---|
| Common.Add32IsModular | firmware/mihashi/src/main_dual.c:125-130 | k wrapping `++` on a uint32 counter equal `(x + k) mod 2^32` |
| Common.Add32Add32 | firmware/mihashi/src/midi_processor.c:119-122 | increments done in two batches land where the same number done at once does |
| Common.CountEachIsAdd32 | firmware/mihashi/src/main_simple_dual.c:229-233 | counting once per element of a sequence adds its length, modulo 2^32 |
| Common.Sub32Add32 | firmware/mihashi/src/main_device_simple.c:50 | the wrapping difference `now - last` recovers the elapsed time across a timer wrap |
| Ring.UsedIsLength | firmware/mihashi/src/midi_processor.c:143-145 | the usage formula `head >= tail ? head - tail : N - tail + head` is the number of queued entries, below N |
| Ring.EmptyIff | firmware/mihashi/src/main_dual.c:105 | the ring is empty exactly when `head == tail` |
| Ring.FullIff | firmware/mihashi/src/main_dual.c:92-94 | `(head + 1) % N == tail` exactly when N - 1 entries are queued |
| Ring.WindowPush | firmware/mihashi/src/main_dual.c:94-98 | writing slot head and advancing head appends exactly that entry to the queue |
| Ring.WindowPop | firmware/mihashi/src/main_dual.c:109-110 | reading slot tail and advancing tail removes exactly the oldest entry |
| Ring.WindowUpdateFree | firmware/mihashi/src/main_simple_dual.c:81 | overwriting a slot outside the queue leaves the queue unchanged |
| Ring.OccupiedAfterPush | firmware/mihashi/src/main_simple_dual.c:71-72 | advancing head marks exactly the old head slot as occupied |
| Ring.OccupiedAfterPop | firmware/mihashi/src/main_simple_dual.c:81-82 | advancing tail frees exactly the old tail slot |
| DualBridge.DirectionsPartition | firmware/mihashi/src/main_dual.c:118-131 | every drained packet goes exactly one way: device-to-host count plus host-to-device writes equals the packets drained |
| DualBridge.HostToDeviceCounts | firmware/mihashi/src/main_dual.c:127-131 | a drain advances `messages_host_to_device` by the number of packets written to the device, mod 2^32 |
| DualBridge.DeviceToHostCounts | firmware/mihashi/src/main_dual.c:118-126 | a drain advances `messages_device_to_host` by the device-to-host packets if a host address is recorded, and not at all otherwise |
| DualBridge.Bridge.constructor | firmware/mihashi/src/main_dual.c:42-44 | the statics start with an empty ring, no host device and zero counters |
| DualBridge.Bridge.Push | firmware/mihashi/src/main_dual.c:91-102 | on a full ring nothing changes; otherwise the packet, time and tag are stored at the old head, head advances mod 256, and the packet is appended to the queue |
| DualBridge.Bridge.Pop | firmware/mihashi/src/main_dual.c:104-112 | false with nothing changed on an empty ring; otherwise the oldest packet, removed, with tail advanced mod 256 |
| DualBridge.Bridge.Dispatch | firmware/mihashi/src/main_dual.c:118-131 | a direction-0 packet is counted only while `host_device_addr > 0` and never written; any other packet is written and counted whatever the write returns |
| DualBridge.Bridge.DrainNext | firmware/mihashi/src/main_dual.c:117-132 | one loop round keeps the drain invariant: remaining queue, writes and counters describe one more packet |
| DualBridge.Bridge.BridgeTask | firmware/mihashi/src/main_dual.c:114-133 | the ring ends empty; the writes are the host-to-device payloads in queue order; each counter is the fold over the drained packets |
| DualBridge.Bridge.MountCallback | firmware/mihashi/src/main_dual.c:213-223 | the address and both endpoints are recorded, replacing any earlier record |
| DualBridge.Bridge.UnmountCallback | firmware/mihashi/src/main_dual.c:225-233 | the record is cleared only if it holds the unmounted address; a stale unmount changes nothing |
| SimpleDual.PutStep | firmware/mihashi/src/main_simple_dual.c:69-72 | filling slot head with a valid entry and advancing head keeps "valid exactly on queued slots" and appends the payload |
| SimpleDual.GetFlags | firmware/mihashi/src/main_simple_dual.c:79-82 | on a non-empty ring the tail slot is valid; clearing it and advancing tail keeps the flags exact |
| SimpleDual.GetPayloads | firmware/mihashi/src/main_simple_dual.c:80-82 | the tail slot holds the oldest payload, and clearing it and advancing tail drops exactly that payload |
| SimpleDual.SlotRing.constructor | firmware/mihashi/src/main_simple_dual.c:40-42 | zero-initialised storage: no slot valid, ring empty |
| SimpleDual.SlotRing.Put | firmware/mihashi/src/main_simple_dual.c:65-74 | false with nothing changed when `(head + 1) % 16 == tail` (15 held); otherwise the slot at head gets the bytes and valid, head advances, the payload is appended |
| SimpleDual.SlotRing.Get | firmware/mihashi/src/main_simple_dual.c:76-86 | false with nothing changed on an empty ring; otherwise the oldest payload, its slot's valid cleared and tail advanced. The "slot not valid" return is unreachable |
| SimpleDual.LowBitsAt | firmware/mihashi/src/main_simple_dual.c:141 | entry k of a byte's levels is `(b >> k) & 1` |
| SimpleDual.SerialRoundTrip | firmware/mihashi/src/main_simple_dual.c:139-144 | reading the pin levels back in groups of eight, least-significant bit first, gives the packet bytes back |
| SimpleDual.PacketBitsAt | firmware/mihashi/src/main_simple_dual.c:139-144 | level `8 * i + k` is bit k of byte i |
| SimpleDual.Serialise | firmware/mihashi/src/main_simple_dual.c:139-144 | the nested loop drives 32 levels: for bytes 0..3, bits 0..7 in increasing order |
| SimpleDual.SimpleBridge.constructor | firmware/mihashi/src/main_simple_dual.c:31-43 | two separate empty rings; status flags and counters zero |
| SimpleDual.SimpleBridge.DeviceRxCallback | firmware/mihashi/src/main_simple_dual.c:225-242 | every packet read counts once in `messages_device_rx`; the packets that fit are appended in order and the rest dropped; the other ring is untouched |
| SimpleDual.SimpleBridge.StartHostCore | firmware/mihashi/src/main_simple_dual.c:179-181 | `core1_entry` sets `host_ready` before its loop, whatever the RX pin reads |
| SimpleDual.SimpleBridge.Receive | firmware/mihashi/src/main_simple_dual.c:233-236 | one packet is counted and then offered to the device-to-host ring |
| SimpleDual.SimpleBridge.HostTask | firmware/mihashi/src/main_simple_dual.c:111-149 | a ping (levels 1, 0, counted) only when more than 5000 ms have passed, then `last_ping = now`; `host_ready` latches on a low RX pin; at most one packet is taken, shifted out and counted |
| SimpleDual.SimpleBridge.HostTransmit | firmware/mihashi/src/main_simple_dual.c:135-148 | at most one device-to-host packet is removed, its 32 levels emitted and counted; the other ring is untouched |
| SimpleDual.SimpleBridge.BridgeTask | firmware/mihashi/src/main_simple_dual.c:151-161 | at most one host-to-device packet is removed and handed to the write; `messages_device_tx` counts it only when the write succeeds |
| MidiProcessor.MessageTypeHighNibble | firmware/mihashi/src/midi_processor.c:79-91 | the name depends only on `status & 0xF0` |
| MidiProcessor.MessageTypeUnknown | firmware/mihashi/src/midi_processor.c:79-91 | "Unknown" exactly for bytes below 0x80 |
| MidiProcessor.MessageTypeDistinct | firmware/mihashi/src/midi_processor.c:79-91 | two status bytes share a name exactly when they share the high nibble |
| MidiProcessor.Cable | firmware/mihashi/src/midi_processor.c:95 | the cable number `(b >> 4) & 0x0F` is below 16 |
| MidiProcessor.CodeIndex | firmware/mihashi/src/midi_processor.c:96 | the Code Index Number `b & 0x0F` is below 16 |
| MidiProcessor.HeaderRoundTrip | firmware/mihashi/src/midi_processor.c:95-96 | cable and code index together give byte 0 back |
| MidiProcessor.ForwardCountBound | firmware/mihashi/src/midi_processor.c:109-122 | forwarded never exceeds processed, with equality exactly when every message passes the filter |
| MidiProcessor.ForwardedCounts | firmware/mihashi/src/midi_processor.c:109-120 | processing advances `messages_forwarded` by the number of messages passing the filter, mod 2^32 |
| MidiProcessor.Processor.constructor | firmware/mihashi/src/midi_processor.c:18-22 | zero-filled statics: empty ring, zero counters |
| MidiProcessor.Processor.Init | firmware/mihashi/src/midi_processor.c:27-38 | every entry zeroed, ring empty, both counters zero |
| MidiProcessor.Processor.IsFull | firmware/mihashi/src/midi_processor.c:40-42 | true exactly when `(head + 1) % 64 == tail`, i.e. when 63 messages are queued |
| MidiProcessor.Processor.IsEmpty | firmware/mihashi/src/midi_processor.c:44-46 | true exactly when `head == tail`, i.e. when nothing is queued |
| MidiProcessor.Processor.Push | firmware/mihashi/src/midi_processor.c:48-63 | false with nothing changed when full; otherwise packet, time and source are stored at the old head, head advances mod 64, the message is appended |
| MidiProcessor.Processor.Pop | firmware/mihashi/src/midi_processor.c:65-77 | false on empty; otherwise the oldest message, removed, with tail advanced mod 64 |
| MidiProcessor.Processor.ProcessMessage | firmware/mihashi/src/midi_processor.c:93-123 | `messages_processed` always increments; `messages_forwarded` increments exactly when the code index and byte 1 are nonzero |
| MidiProcessor.Processor.ProcessNext | firmware/mihashi/src/midi_processor.c:134-136 | one loop round keeps the drain invariant for one more message |
| MidiProcessor.Processor.ProcessQueued | firmware/mihashi/src/midi_processor.c:133-136 | the ring ends empty; each counter is the fold over the queued messages in order |
| MidiProcessor.Processor.HandlePacket | firmware/mihashi/src/midi_processor.c:125-137 | a failed push changes nothing, counters included; otherwise all queued messages, the new one last, are processed and the ring ends empty |
| MidiProcessor.Processor.GetStats | firmware/mihashi/src/midi_processor.c:140-146 | both counters; usage equals the number of queued messages and `(head - tail) mod 64`, at most 63 |
| UsbHost.ConnectedCountUpdate | firmware/mihashi/src/usb_host.c:60-65 | replacing one slot changes the connected count by the change in that slot's flag |
| UsbHost.ConnectedCountFull | firmware/mihashi/src/usb_host.c:57-70 | the count equals the table size exactly when every slot is connected |
| UsbHost.ConnectedCountEmpty | firmware/mihashi/src/usb_host.c:31-32 | a table with no connected slot counts zero |
| UsbHost.ConnectedCountPositive | firmware/mihashi/src/usb_host.c:115-117 | a connected slot makes the count positive |
| UsbHost.FirstFree | firmware/mihashi/src/usb_host.c:58-59 | the scan's stopping point: the lowest slot not connected, every slot before it connected |
| UsbHost.FirstMatch | firmware/mihashi/src/usb_host.c:81-82 | the lowest connected slot holding the address, no earlier slot holding it |
| UsbHost.NoSlotError | firmware/mihashi/src/usb_host.c:72-74 | the corrected "no available device slots" condition holds exactly when every slot was connected before the mount |
| UsbHost.FullTableGoesUnreported | firmware/mihashi/src/usb_host.c:72-74 | on a full table no slot is free, yet the source's test (count == 0) is false |
| UsbHost.MountThenUnmount | firmware/mihashi/src/usb_host.c:57-88 | mounting a new address then unmounting it clears the slot it claimed and restores every connected flag and the count |
| UsbHost.Registry.constructor | firmware/mihashi/src/usb_host.c:21-22 | zeroed statics: every slot all-zero (not connected), count zero |
| UsbHost.Registry.Init | firmware/mihashi/src/usb_host.c:27-38 | every slot zeroed, count zero, registry invariant holds |
| UsbHost.Registry.Mount | firmware/mihashi/src/usb_host.c:47-75 | the lowest free slot gets address, `instance = i`, cable counts and `connected`; the count rises by one; with no free slot nothing changes; the error message is never printed |
| UsbHost.Registry.Unmount | firmware/mihashi/src/usb_host.c:77-89 | the lowest connected slot holding the address is disconnected and uncounted; no other slot changes; an unknown address is a no-op |
| UsbHost.Registry.GetActiveDevices | firmware/mihashi/src/usb_host.c:111-113 | the count equals the number of connected slots, at most 4 |
| UsbHost.Registry.IsDeviceConnected | firmware/mihashi/src/usb_host.c:115-118 | false for an index of 4 or more, else that slot's flag; a connected slot implies a positive count |
| DeviceSimple.NextNote | firmware/mihashi/src/main_device_simple.c:63-64 | the note stays in 60..72 |
| DeviceSimple.NoteAfter | firmware/mihashi/src/main_device_simple.c:62-64 | after any number of successful sends the note is still in 60..72 |
| DeviceSimple.NoteAfterCycles | firmware/mihashi/src/main_device_simple.c:62-64 | k successful sends move the note k steps round the cycle 60..72 |
| DeviceSimple.NotePeriod | firmware/mihashi/src/main_device_simple.c:62-64 | the note comes back to its start exactly after a multiple of 13 sends |
| DeviceSimple.TestPacket | firmware/mihashi/src/main_device_simple.c:51-56 | the packet carries the note in byte 2 |
| DeviceSimple.TestPacketIsNoteOn | firmware/mihashi/src/main_device_simple.c:51-56 | the test packet is cable 0, code index 9, a Note On by the classifier, and passes the forwarding filter |
| DeviceSimple.SentAfterCounts | firmware/mihashi/src/main_device_simple.c:137-140 | the echo advances `messages_sent` by the number of successful writes, mod 2^32 |
| DeviceSimple.TestDevice.constructor | firmware/mihashi/src/main_device_simple.c:22-46 | not ready, counters zero, `last_test` 0, note 60 |
| DeviceSimple.TestDevice.MarkReady | firmware/mihashi/src/main_device_simple.c:101 | `device_ready` is set |
| DeviceSimple.TestDevice.SendTestMidi | firmware/mihashi/src/main_device_simple.c:44-69 | a send of {0x09, 0x90, note, 0x7F} is attempted exactly when ready and `now - last_test > 3000`; only a successful write counts and advances the note; every attempt sets `last_test = now`; the note stays in 60..72 |
| DeviceSimple.TestDevice.EchoCallback | firmware/mihashi/src/main_device_simple.c:126-142 | every packet read is echoed and counted in `messages_received`; `messages_sent` counts only the accepted echoes |
| UsbDescriptors.LittleEndian16 | firmware/mihashi/src/usb_descriptors.c:80 | the memcpy'd word has the first byte as low byte and the second as high byte |
| UsbDescriptors.Header | firmware/mihashi/src/usb_descriptors.c:101 | the header's low byte is `2 * chr_count + 2` and its high byte is the string descriptor type 3 |
| UsbDescriptors.CharCount | firmware/mihashi/src/usb_descriptors.c:91-92 | `chr_count` is at most 31 and at most the string length |
| UsbDescriptors.TableCharCount | firmware/mihashi/src/usb_descriptors.c:64-69 | for the table's strings `chr_count` is `min(strlen, 31)` |
| UsbDescriptors.StringDescriptor | firmware/mihashi/src/usb_descriptors.c:71-101 | every descriptor fits the 32-unit buffer |
| UsbDescriptors.NarrowWiden | firmware/mihashi/src/usb_descriptors.c:95-97 | the low byte of each zero-extended unit is the original ASCII byte |
| UsbDescriptors.TextDescriptorHeader | firmware/mihashi/src/usb_descriptors.c:100-101 | type STRING, and bLength counts the descriptor's bytes (two per unit, header included), at most 64 |
| UsbDescriptors.LanguageDescriptor | firmware/mihashi/src/usb_descriptors.c:79-82 | index 0 yields header 0x0304 then 0x0409 |
| UsbDescriptors.TextRoundTrip | firmware/mihashi/src/usb_descriptors.c:88-97 | decoding the units after the header gives back the string's first `chr_count` bytes |
| UsbDescriptors.StringDescriptors.constructor | firmware/mihashi/src/usb_descriptors.c:71 | a 32-unit buffer |
| UsbDescriptors.StringDescriptors.StringCallback | firmware/mihashi/src/usb_descriptors.c:74-104 | NULL (no write) for a nonzero index of 4 or more, 0xEE included; otherwise the buffer starts with that index's descriptor; only units 0..chr_count are written; langid plays no part |
| UsbDescriptors.StringDescriptors.WidenInto | firmware/mihashi/src/usb_descriptors.c:95-97 | `_desc_str[1 + i]` becomes the zero-extended `str[i]` for `i < chr_count`, and no other unit is written |

## Left out

- Concurrency: the firmware shares `volatile` indices between the two cores, and in `main_dual.c` both
  cores push. Every operation here is one atomic sequential step; memory ordering is not modelled.
- `printf` logging, `sleep_*` delays, clock and GPIO bring-up, `tud_task`/`tuh_task`, the main loops and
  the periodic status printers are all I/O or timing.
  - The ping and bit levels are returned as a sequence, without their timing.
- TinyUSB reads and writes are nondeterministic. Their outcomes are method parameters.
  - Device-to-host packets in `main_dual.c` are counted but never written, as in the source.
- `main_dual.c`'s device receive callback (which pushes with direction 0) and the placeholder host-RX
  packet are not modelled. Pushes are modelled through `Bridge.Push`.
- `usb_host.c`'s `tuh_midi_rx_cb`, `usb_host_send_midi_packet` and the empty `usb_host_task` are not
  modelled. They forward to the processor, which is modelled as `MidiProcessor.Processor.HandlePacket`,
  or to TinyUSB.
- UsbHost.Registry.Mount: the `in_ep`/`out_ep` arguments of `tuh_midi_mount_cb` are only printed, so
  they are not parameters.
- The device and configuration descriptor callbacks return constant tables built by TinyUSB macros.
- `usb_host_simple.c`, `main.c`, `main_minimal.c` and the upload script are not part of this model.
- UsbDescriptors.STRING_TABLE holds each string's bytes up to its terminating NUL, so `strlen` is the
  literal's length.
- Timestamps are opaque `uint32` inputs: one per packet for `SimpleBridge.DeviceRxCallback`, one per
  call elsewhere.
- `core1_entry`'s loop in `main_simple_dual.c` (lines 183-186) is not modelled. It calls
  `simple_host_task` and sleeps. The start-up assignment `host_ready = true` before the loop is modelled
  as `SimpleBridge.StartHostCore`; a caller runs it before the first `HostTask`.

## Findings

| source | as written | input that shows it | evidently intended | confidence | as-written member | corrected member |
|---|---|---|---|---|---|---|
| firmware/mihashi/src/usb_host.c:72 | After the slot scan, "ERROR - No available device slots" is printed when `active_midi_devices == 0`. A successful mount leaves the count at 1 or more. A failed mount happens only on a full table, where the count is 4. So the message is never printed. | Four devices connected, then a fifth `tuh_midi_mount_cb`: no slot is claimed and nothing is reported. | Report the failure when the scan found no free slot, i.e. when every slot was connected before the mount. | not executed; high | UsbHost.FullTableGoesUnreported | UsbHost.NoSlotError |

In the model, `UsbHost.Registry.Mount` returns `errorLogged` as the source computes it, and proves that
it is always false. Its `slot` result is `None` exactly when `NoSlotError` holds, which is the report
the message was meant to give.
