# ds5vita in Dafny

A verified model of the core of ds5vita. This kernel plugin lets a
PlayStation Vita use a DualSense (DS5) controller over Bluetooth. The model
covers four things:

- The 64-byte DS5 input report. It is a packed, little-endian, LSB-first
  bit-field overlay.
- The projection of a decoded report onto the console's emulated buttons and
  sticks, touch screen, motion state and battery query.
- The Bluetooth callback's session state machine: discovery, pairing,
  connection, read loop, disconnect and the address filter.
- The outbound framing of output reports and read requests.

Modules, one file each:

- `Bytes` (`bytes.dfy`): bytes, little-endian words and the two's-complement
  reading of a `signed short`.
- `Report` (`report.dfy`): `struct ds5_input_report` as a datatype, with
  `Decode` (the struct overlay) and `Encode`. The two are proved inverse in
  both directions.
- `Effects` (`effects.dfy`): the kernel calls the driver issues, as values.
  The model records them in a trace and never executes them.
- `Transport` (`transport.dfy`): `ds5_send_report`, `ds5_send_0x11_report`
  and the descriptor that `enqueue_read_request` posts.
- `Emulation` (`emulation.dfy`): `set_input_emulation` and
  `reset_input_emulation`. This covers the `SCE_CTRL_*` button mask, the
  D-pad clock table and the dead-zone test.
- `Patches` (`patches.dfy`): `patch_analogdata` and `patch_touchdata`, as
  in-place loops over arrays. Also `patch_motion_state` and the battery code.
- `Session` (`session.dfy`): the pure `Step` (one event) and `Drain` (one
  callback run). Also the class `Driver`, which holds the globals
  `ds5_connected`, `ds5_mac0`, `ds5_mac1`, `ds5_input` and `recv_buff`.
  - Its methods `HandleEvent`, `OnReadReply`, `EnqueueReadRequest` and
    `Callback` are proved to follow `Step`, `ReadReply`, `Repost` and `Drain`.
    Each one leaves exactly the state the function gives, and extends the
    trace by exactly the calls it lists.
  - `Shutdown` states its own calls directly.
  - The hook entry points are methods of `Driver` that read those globals.
    Each takes the native call's result as a parameter.

Kernel answers are inputs to the model:

- `ksceBtGetVidPid`, and whether the two heap allocations succeed, come in a
  `Kernel` record with each delivered event.
- The outcomes of `ksceBtReadEvent` are a list of `Poll` values.
- The Bluetooth stack writing into the posted receive buffer is a
  `Received` poll.

Constants from the Vita SDK headers are not in the source:

- The `SCE_CTRL_*` button bits.
- `SCE_CTRL_TYPE_DS4` = 8.
- `SCE_TOUCH_PORT_FRONT` = 0.

The model uses the SDK's values for these.

Behaviour as written, which the model keeps:

- The D-pad field has 4 bits. Values 8 to 15 press no direction.
- A new connection starts from the cleared report, and the hooks read it
  until the first input report arrives. The model proves this in
  `Session.ClearedReportSeenByHooks`:
  - The analog hooks force all four stick axes to 0.
  - The touch hooks report two contacts at (0, 0) with id 0. The lemma
    also proves the active count is 2. With `Session.Driver.TouchHook`'s
    contract, that gives one power tick per record.
  - The battery hook reports 0.
- The motion patch writes `accel_y` into acceleration y and then overwrites
  it with `accel_z`. Acceleration z and the gyroscope are never patched.
- Touch contacts are scaled without clamping. Rows 940 to 4095 of the pad
  land below the 1080-row screen.
- When only the second finger is down, `reportNum` is 1 but the contact sits
  in slot 1.
- Event kinds 0x08 and 0x09, and every kind without a case, change nothing
  and issue no call (`Session.DiscoveryAndPairing`).
- Accepting a DualSense brings the link up even when the configuration send
  fails for lack of memory (`Session.AcceptConnects`).
- A read reply whose report id is not 0x11 does not re-post the read.
- Shutdown sends the disconnect request but leaves `ds5_connected` set.

## Model

| member | source | states |
|---|---|---|
| Bytes.Signed16 | main.c:58-74 | the value of a signed short read from its 16 bits: the range is -32768..32767, and the value is negative exactly when the top bit is set |
| Report.Decode | main.c:25-98 | the struct overlay on 64 received bytes: the sticks are bytes 1-4, the triggers bytes 8-9, and the D-pad and battery level are the low nibbles of bytes 5 and 30 |
| Report.Encode | main.c:25-98 | the bytes a report occupies: exactly 64, the packed 43 bytes padded by aligned(32) |
| Report.EncodeDecode | main.c:25-98 | decoding loses nothing: re-encoding a decoded buffer gives back every one of its 64 bytes |
| Report.DecodeEncode | main.c:25-98 | every well-formed report is the decoding of its own encoding, so the layout is a bijection |
| Report.FaceFieldsOf | main.c:32-36 | byte 5 holds the D-pad in bits 0-3, then square, cross, circle and triangle in bits 4-7 |
| Report.ShoulderFieldsOf | main.c:38-45 | byte 6 holds l1, r1, l2, r2, share, options, l3 and r3 in bits 0-7 |
| Report.SystemFieldsOf | main.c:47-49 | byte 7 holds ps in bit 0, tpad in bit 1 and the 6-bit counter in bits 2-7 |
| Report.StatusFieldsOf | main.c:78-82 | byte 30 holds the battery level in bits 0-3, then usb_plugged, headphones, microphone and padding |
| Report.MotionFieldsOf | main.c:58-74 | the twelve motion bytes are accel x, y, z and gyro z, y, x as little-endian 16-bit words |
| Report.TouchFieldsOf | main.c:88-96 | bytes 35-38 and 39-42 are the two finger words, little-endian |
| Report.DecodeFinger | main.c:88-96 | a finger read off a touch word packs back into the same word |
| Report.FingerRoundTrip | main.c:88-96 | a finger word splits into id:7, activelow:1, x:12, y:12 and reassembles to the same finger |
| Report.InputReport.Roll | main.c:63-66 | `roll` is the same storage as `gyro_z`: the little-endian word at bytes 19-20 |
| Report.InputReport.Yaw | main.c:67-70 | `yaw` is the same storage as `gyro_y`: the little-endian word at bytes 21-22 |
| Report.InputReport.Pitch | main.c:71-74 | `pitch` is the same storage as `gyro_x`: the little-endian word at bytes 23-24 |
| Report.HeaderOf | main.c:26-56 | bytes 0-12 of a buffer come back from the decoded id, sticks, button bytes, triggers, counters and battery byte |
| Report.MotionOf | main.c:58-74 | bytes 13-24 of a buffer come back from the six decoded motion words |
| Report.TouchOf | main.c:88-96 | bytes 35-42 of a buffer come back from the two decoded finger words |
| Report.ButtonBytesOf | main.c:32-82 | the four bit-field bytes (5, 6, 7, 30) come back from their decoded fields |
| Report.EncodeSlices | main.c:25-98 | where each part of the report sits in the 64 encoded bytes |
| Transport.OutputRequest | main.c:153-161 | an output request is type 1, its buffer is the report id followed by the data, and its length is the data length plus one |
| Transport.SendReportEffects | main.c:137-169 | at most one call: the transfer of the framed report to (mac0, mac1), issued exactly when both allocations succeed; it never posts a read |
| Transport.SendReport | main.c:137-169 | copies the data behind the report id into a fresh buffer; returns -1 when an allocation fails and 0 otherwise, whatever the transfer answers |
| Transport.SendConfigReport | main.c:171-194 | sends the fixed 12-byte LED/rumble payload under report id 0x11; -1 exactly when sending fails |
| Transport.ConfigFrame | main.c:173-188 | the configuration frame on the wire is the 13 bytes 0x11, 0x80, 0x0F, five zeros, 0xFF, 0x00, 0xFF, 0xFF, 0x00 |
| Transport.ReadRequest | main.c:463-474 | the read descriptor is type 0 over the whole 256-byte receive buffer, all cleared |
| Emulation.MasksDistinct | main.c:208-246 | every console button the driver presses has its own nonzero bit inside the 17-bit mask |
| Emulation.DpadButtons | main.c:217-224 | D-pad 0-7 press up, up+right, right, right+down, down, down+left, left, left+up; values 8-15 press nothing; only direction bits are ever set |
| Emulation.DpadNoOpposites | main.c:217-224 | no D-pad value presses up with down or left with right |
| Emulation.FaceAndShoulderBits | main.c:208-235 | cross, circle, triangle, square, l1, r1, and l2/r2 (as the left/right triggers) are each pressed exactly when their report bit is set |
| Emulation.SystemBits | main.c:237-246 | l3, r3, share as select, options as start, and ps as the intercepted bit are each pressed exactly when their report bit is set |
| Emulation.Buttons | main.c:205-246 | the button mask of a report sets no bit outside the 17 buttons, and its direction bits are exactly those of the D-pad's clock position |
| Emulation.NoButtons | main.c:203-246 | the mask is empty exactly when no mapped bit is set and the D-pad is released (8-15) |
| Emulation.AxisMoved | main.c:248-251 | a stick axis counts as moved exactly when it is at most 124 or at least 132 |
| Emulation.TriggerMoved | main.c:252-253 | a trigger counts as moved exactly when it is at least 4 |
| Emulation.Moved | main.c:248-255 | some stick axis is at most 124 or at least 132, or some trigger is at least 4 |
| Emulation.SetInputEmulation | main.c:203-265 | exactly two or three calls: the button mask, then the raw sticks (lx, ly, rx, ry, twice) with mode 1, then a power tick, present exactly when some button is pressed or some axis or trigger has moved; no read is posted |
| Emulation.ResetInputEmulation | main.c:196-201 | no button, all eight axes at 0x80, mode 0 |
| Emulation.DeadZoneDoesNotGateAxes | main.c:248-264 | for any two reports with the same buttons and every axis at rest, the button call and the tick agree, and the analog calls are equal exactly when the raw sticks are |
| Emulation.DeadZoneBoundary | main.c:248-254 | deviation 3 from 128 is not movement and 4 is; trigger 3 is not movement and 4 is |
| Patches.AxisOverride | main.c:276-283 | a stick axis takes the controller's value when it is at most 124 or at least 132, otherwise keeps the native value |
| Patches.TriggerOverride | main.c:284-287 | a trigger takes the controller's value when it is at least 4, otherwise keeps the native value |
| Patches.PatchPad | main.c:272-291 | a pad record after patching: each axis and trigger follows its own threshold test, and every other field is unchanged |
| Patches.PatchPadIdempotent | main.c:272-291 | patching a record twice with the same report is the same as patching it once |
| Patches.PatchPadAtRest | main.c:272-291 | the patch leaves every record alone exactly when no axis or trigger of the report has moved |
| Patches.PatchAnalogData | main.c:267-292 | each of the first count records is patched in place; the records after them are untouched |
| Patches.ScaleX | main.c:380 | x * 1920 / 1920 is the identity |
| Patches.ScaleY | main.c:381 | y * 1080 / 940 rounded down; the result is on screen (below 1080) exactly when y is below 940 |
| Patches.ActiveCount | main.c:376-391 | the number of contacts whose activelow bit is clear: 0 exactly when neither is active, 2 exactly when both are, so 1 when only one is |
| Patches.Contact | main.c:379-382 | a written slot takes the finger's id and scaled x and y; force, reserved and info stay native |
| Patches.PatchTouch | main.c:377-396 | finger 1 goes to slot 0 and finger 2 to slot 1, each only when active; reportNum becomes the active count only when it is nonzero; timestamp, status and slots 2-7 are unchanged |
| Patches.PatchTouchIdle | main.c:393-396 | reportNum is left native for every record exactly when no contact is active |
| Patches.PatchTouchNoContact | main.c:377-396 | with no active contact the record is untouched |
| Patches.PatchTouchIdempotent | main.c:377-396 | patching a touch record twice with the same report is patching it once |
| Patches.SecondFingerOnly | main.c:378-395 | with only the second finger down, reportNum is 1, slot 0 keeps the native data and the contact is in slot 1 |
| Patches.TouchCentre | main.c:380-381 | (960, 470) on the pad maps to (960, 540) on the screen; y = 939 maps to 1078, y = 940 to 1080, and y = 4095 to 4704 |
| Patches.PatchTouchData | main.c:367-399 | on the front port, patches the first nBufs records in place and issues one power tick per record when some contact is active; on any other port, changes nothing and issues nothing |
| Patches.PatchMotion | main.c:441-451 | acceleration x takes accel_x and y takes accel_z; acceleration z and every other field of the state stay native |
| Patches.MotionIgnoresAccelYAndGyro | main.c:447-449 | the patched state does not depend on accel_y or on any gyroscope word |
| Patches.MotionDropsVerticalAxis | main.c:447-449 | whatever accel_y reads, acceleration y is zero whenever accel_z is |
| Patches.BatteryCode | main.c:313-319 | plugged in: 0xEE when level <= 10, else 0xEF. Unplugged: 0..5, zero only at level 0, 5 from level 8 up, and otherwise level/2+1 |
| Patches.BatteryMonotone | main.c:316-319 | unplugged, a higher battery level never reports a lower code |
| Patches.BatteryExamples | main.c:313-319 | unplugged levels 1 and 9 give 1 and 5; plugged levels 10 and 11 give 0xEE and 0xEF |
| Session.ZeroReport | main.c:116-119 | the cleared report encodes to 64 zero bytes |
| Session.Initial | main.c:105-109 | at start nothing is connected and no address is latched |
| Session.IsDs5 | main.c:121-125 | a device is a DualSense exactly when its vendor id is 0x054C and its product id is 0x05C4 or 0x09CC |
| Session.Step | main.c:528-619 | one event: an event from another address while connected changes nothing and issues nothing; only an accept or a disconnect changes the connected flag; only an inquiry result or accept from a DualSense changes the latched address; only an accept or a read reply changes the report; what each event kind does is stated by DiscoveryAndPairing, AcceptConnects, AcceptIgnoresOthers, DisconnectResets, InputReportAccepted, OtherReportDropped and WriteReplyReposts |
| Session.ReadReply | main.c:590-609 | a 0x0A reply whose first byte is 0x11: the new report re-encodes to exactly the first 64 received bytes, the buffer is cleared, nothing else changes, and the calls end with the one read request re-posted to the device; any other first byte: no change and no call |
| Session.Drain | main.c:505-522 | a callback run keeps the receive buffer at 256 bytes; how it proceeds poll by poll is stated by DrainHead, OverflowsSkipped and EmptyReadEndsRun |
| Session.OverflowsSkipped | main.c:511-513 | any number of overflows at the head of a run is retried away: the run is the run of what follows them |
| Session.EmptyReadEndsRun | main.c:515-517 | the first empty read ends the run: no poll after it changes the outcome |
| Session.QuietRun | main.c:505-522 | a run in which no event is delivered (overflows, buffer writes, an empty read) issues no call and changes nothing but the receive buffer |
| Session.Repost | main.c:463-476 | clears the receive buffer and posts exactly one read request to the replying device |
| Session.DrainHead | main.c:505-526 | an overflow is retried, an empty read ends the run, and a delivered event is handled before the rest |
| Session.ForeignEventIgnored | main.c:528-531 | while connected, an event from another address changes no state and issues no call |
| Session.ForeignRunIgnored | main.c:505-531 | while connected, a whole callback run of events from other addresses changes nothing and issues nothing |
| Session.StepReads | main.c:590-617 | one event posts at most one read request, and only when it is a 0x0A or 0x0B reply |
| Session.DrainReads | main.c:500-623 | a callback run posts no more read requests than the replies it handles |
| Session.DiscoveryAndPairing | main.c:534-588 | a DualSense inquiry result stops the inquiry and latches its address (any other device changes nothing); an inquiry stop starts the connection to the latched address exactly when no link is up and an address is latched; a link-key request is confirmed; kinds 0x08, 0x09 and unknown ids change nothing and issue nothing |
| Session.ConnectOnlyOnAccept | main.c:557-569 | the link comes up only on an accepted connection from vid 0x054C with pid 0x05C4 or 0x09CC; the address is then latched and the report cleared |
| Session.LinkAddressStable | main.c:528-575 | while the link is up, no event changes the latched address, and only a disconnect from that device takes the link down |
| Session.AcceptConnects | main.c:557-569 | accepting a DualSense clears the report, latches the address and sets the connected flag whether or not the allocations succeed, and issues exactly the calls of the configuration send: the 0x11 frame when both allocations succeed, nothing otherwise |
| Session.AcceptSendsConfig | main.c:557-569 | accepting a DS5 sends the 13-byte 0x11 configuration frame to it, and nothing else, when both allocations succeed |
| Session.AcceptIgnoresOthers | main.c:557-569 | accepting any other device changes nothing and issues nothing |
| Session.DisconnectResets | main.c:572-575 | a disconnect clears the connected flag and issues exactly the neutral reset: buttons 0, all axes 0x80, mode 0 |
| Session.InputReportAccepted | main.c:590-604 | a 0x0A reply whose buffer starts with 0x11 makes the first 64 bytes the new report, emulates it, clears the buffer and re-posts the read to that device |
| Session.InputReportLossless | main.c:596 | the report taken over holds exactly the 64 bytes received |
| Session.ClearedReportSeenByHooks | main.c:557-569 | until the first input report, the hooks see the cleared report: the analog patch forces all four stick axes to 0 and leaves the triggers; the touch patch reports two contacts at (0, 0) with id 0; the battery code is 0 |
| Session.OtherReportDropped | main.c:590-609 | a 0x0A reply with any other report id changes nothing and does not re-post the read |
| Session.WriteReplyReposts | main.c:611-617 | a 0x0B reply always clears the buffer and re-posts the read |
| Session.Driver.constructor | main.c:105-109 | the globals start disconnected, with no address and a cleared report and buffer |
| Session.Driver.EnqueueReadRequest | main.c:463-476 | zeroes the receive buffer in place and records one read request for the device |
| Session.Driver.HandleEvent | main.c:511-619 | one loop turn leaves the globals and the trace exactly as Step says |
| Session.Driver.OnReadReply | main.c:590-609 | the 0x0A case leaves the globals and the trace exactly as ReadReply says |
| Session.Driver.Service | main.c:505-619 | one loop turn on one poll: it stops exactly on an empty read, leaving everything unchanged; otherwise the run from the new globals and trace equals the run from the old ones |
| Session.Driver.Callback | main.c:500-623 | a callback run leaves the globals and the trace exactly as Drain says |
| Session.Driver.Shutdown | main.c:641-644 | when connected: a disconnect request to the latched address, then the neutral reset; the state is unchanged |
| Session.Driver.PortInfoHook | main.c:294-304 | returns the native result; port 1 is reported as a DS4 pad only when that result is not negative and the link is up |
| Session.Driver.BatteryHook | main.c:306-325 | for port 1 with the link up, returns 0 and the battery code whatever the native call returned; otherwise passes the native result and value through |
| Session.Driver.AnalogHook | main.c:327-365 | returns the native result, and patches the pad records only when it is not negative and the link is up |
| Session.Driver.TouchHook | main.c:401-439 | returns the native result, and patches the touch records only when it is not negative and the link is up |
| Session.Driver.MotionHook | main.c:453-461 | returns the native result, and patches the motion state only when it is not negative and the link is up |

## Left out

- Hook installation and removal through taiHEN, `module_start` and
  `module_stop`: plumbing around foreign calls.
- The `SceBt_sub_22999C8` hook: it writes through undocumented offsets
  into opaque kernel structures.
- Heap, thread and callback creation, callback registration, the 200 ms idle
  loop and the `bt_thread_run` flag: operating-system lifecycle. Only the
  cleanup after the loop is modelled, as `Session.Driver.Shutdown`.
- Concurrency between the Bluetooth callback and the hooks. The source has
  no lock, and the model is single-threaded.
- `LOG`, the log buffer and `TEST_CALL`. Their definitions are not part of
  this model.
- Transport.SendReport: does not model the memory leak when the second
  allocation fails, nor the freeing of the buffers after the transfer. The
  unused `flags` argument is dropped.
- `ksceKernelMemcpyUserToKernel` and `ksceKernelMemcpyKernelToUser` are
  treated as plain copies that cannot fail.
- Patches.PatchAnalogData: `count` is a natural number. The source compares
  an unsigned index against a signed `count`, so a negative count would run
  far past the buffer. The model does not cover that case.
- Patches.PatchTouchData: each record must have the eight report slots of
  `SceTouchData`.
- Session.Driver.PortInfoHook: the port list must hold at least two
  entries. `SceCtrlPortInfo` has five.
- Patches.PatchMotion: the short-to-float conversion is modelled as exact
  (every 16-bit value is exact in a float). The quaternion and matrices are
  one list of values that the patch never touches.
- Session.Driver.Callback: the callback runs over a finite list of poll
  outcomes. The end of the list counts as the stack having no more events.
  The stack's asynchronous write into the receive buffer is a `Received`
  poll between events.
- Transport.ReadRequest and Transport.OutputRequest: the zeroing of the
  request descriptor (`memset(req, 0, ...)`) and its self-link
  (`next = req`) are not modelled. A request is its type, its buffer and its
  length.
