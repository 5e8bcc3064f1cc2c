# Pixy host library (libpixyusb) in Dafny

This project models the core of libpixyusb, the host-side library that talks
to a Pixy (CMUcam5) camera over USB. The model has two parts.

- **The per-device interpreter** (`pixyinterpreter.cpp`). Each interpreter
  holds the following state:
  - a bounded block buffer that evicts the oldest block;
  - the "blocks are new" flag;
  - the frame buffer and the waiting-for-frame flag;
  - the running and closing flags of its service thread;
  - a cache from procedure names to Chirp procedure ids.

  The foreground calls are pure transition functions on that state:
  `get_blocks`, `blocks_are_new`, `update_frame`, `reset_frame_wait`,
  `get_frame` and `send_command`. So are the message callback
  `interpret_data` and its three decoders: BA81 (a raw frame), CCB1 (plain
  blobs, added to the buffer) and CCB2 (clear the buffer, then colour-code
  blobs, then plain blobs).
- **The registry and C API** (`pixy.cpp`). The registry is a map from a
  camera's 32-bit uid to its interpreter. The model covers:
  - the per-uid entry points, which return -1 for an unknown uid;
  - `pixy_close`;
  - `pixy_enumerate`'s loop over the USB device list, with its per-device
    cleanup paths;
  - `pixy_error`'s table lookup;
  - the command wrappers and the bit packing of colour, white-balance and
    exposure words, including the exposure round trip.

The Chirp remote-procedure engine is an oracle. An `Engine` value supplies
three functions: procedure-name resolution, the synchronous call and the
asynchronous call. A message delivered by the service thread is an argument
of `ServiceStep`. The libusb calls made for a device during enumeration are
data: each `Device` carries the status every call returns.

Files, one module each:
- `common.dfy`: C integer widths, `Option`, and the header constants.
- `block_buffer.dfy`: the bounded FIFO.
- `blobs.dfy`: blob records, blocks and their geometry.
- `chirp.dfy`: the engine interface and the messages.
- `interpreter.dfy`: the interpreter.
- `interpreter_props.dfy`: properties that relate several interpreter
  transitions.
- `packing.dfy`: the packed words.
- `registry.dfy`: the uid map and its lookups.
- `api.dfy`: the command wrappers.
- `error_text.dfy`: `pixy_error`.
- `enumerate.dfy`: `pixy_enumerate`.

Some constants come from headers that are not part of this model: `pixy.h`,
`pixyinterpreter.hpp`, `blob.h` and `chirp.hpp`.
- The error codes take the values of the upstream `pixy.h`:
  - the libusb-derived codes are -1, -4, -5 and -6;
  - invalid parameter is -150, Chirp error is -151 and invalid command is
    -152.
- The camera's USB ids are vendor 0xB1AC and product 0xF000.
- A plain blob is 5 words and a colour-code blob is 6.
- The block-buffer capacity and the frame dimensions are not fixed. They are
  fields of a `Config` that every interpreter carries, so every property
  holds for every capacity. One lemma takes the capacity of 1000 as a
  concrete case.

Two points where the model has to say what the code leaves open:
- **Record counts are not checked against the payload.** The decoders
  divide a report's declared word count by the record size and read that
  many records, without comparing the count with the length of the array
  they receive (`pixyinterpreter.cpp:273-276` and `297-308`). `WellFormed`
  states what the decoders assume about the payload, and the model adds no
  check.
- **Four fields start out unset.** Of the modelled fields, the
  interpreter's constructor sets only the running and closing flags.
  `Interpreter.New` takes the initial contents of the fresh flag and the
  frame bytes as parameters. It gives the frame wait flag `false` and the
  frame procedure id -1. No operation reads either before start-up
  (`Interpreter.Init`) overwrites both, and start-up runs straight after
  construction.

## Model

| member | source | states |
|---|---|---|
| BlockBuffer.Push | libpixyusb/libpixyusb/src/host/libpixyusb/src/pixyinterpreter.cpp:335-343 | storing one block into a buffer within capacity keeps it within capacity and leaves exactly the last `cap` elements of old contents plus the new block; the new block is last |
| BlockBuffer.Append | libpixyusb/libpixyusb/src/host/libpixyusb/src/pixyinterpreter.cpp:318-344 | storing a run of blocks one by one leaves exactly the last `cap` elements of old contents followed by the run, in arrival order, and never exceeds capacity |
| Blobs.Extent | libpixyusb/libpixyusb/src/host/libpixyusb/src/pixyinterpreter.cpp:324-325 | width/height is `hi - lo` for ordered bounds and wraps modulo 2^16 otherwise |
| Blobs.Centre | libpixyusb/libpixyusb/src/host/libpixyusb/src/pixyinterpreter.cpp:326-327 | the centre is `lo + Extent(lo, hi) / 2` truncated to 16 bits; for ordered bounds this is `lo + (hi - lo) / 2` and lies between them |
| Blobs.DecodeA | libpixyusb/libpixyusb/src/host/libpixyusb/src/pixyinterpreter.cpp:322-331 | a plain blob becomes a NORMAL block with angle 0 and its model as signature; width and height are the 16-bit differences of the bounds, and x and y are `left + width/2` and `top + height/2` truncated to 16 bits, which for ordered bounds is exact and lies inside the box |
| Blobs.DecodeB | libpixyusb/libpixyusb/src/host/libpixyusb/src/pixyinterpreter.cpp:355-361 | a colour-code blob becomes a COLOR_CODE block that keeps the record's angle, with the same width, height and centre values as a plain blob |
| Blobs.RecordCount | libpixyusb/libpixyusb/src/host/libpixyusb/src/pixyinterpreter.cpp:273-276 | the record count is the largest n with n records fitting in the declared word count |
| Chirp.FourCC | libpixyusb/libpixyusb/src/host/libpixyusb/src/pixyinterpreter.cpp:222-235 | a format code holds its four characters in bytes 0 to 3, first character lowest |
| Interpreter.New | libpixyusb/libpixyusb/src/host/libpixyusb/src/pixyinterpreter.cpp:21-26 | a constructed interpreter is neither running nor closing, has no blocks and an empty procedure cache |
| Interpreter.Init | libpixyusb/libpixyusb/src/host/libpixyusb/src/pixyinterpreter.cpp:32-51 | start-up resolves `cam_getFrame` into the frame procedure id, marks the interpreter running and not waiting for a frame, and leaves the configuration, blocks, fresh flag, frame and cache alone |
| Interpreter.ThreadExit | libpixyusb/libpixyusb/src/host/libpixyusb/src/pixyinterpreter.cpp:194-202 | the service thread leaves its loop only when closing was requested, and clears the running flag on the way out |
| Interpreter.Close | libpixyusb/libpixyusb/src/host/libpixyusb/src/pixyinterpreter.cpp:53-77 | after close the interpreter is not running; a live thread was first told to close; configuration, blocks, fresh flag, frame, frame wait, frame procedure id and cache are untouched |
| Interpreter.GetBlocks | libpixyusb/libpixyusb/src/host/libpixyusb/src/pixyinterpreter.cpp:79-102 | a negative maximum or null destination returns -150 and changes nothing (fresh flag included); otherwise the oldest blocks are copied, the count returned is the number copied, which is min(max, size) unless both max and size are at least 65536, and the fresh flag is cleared even when nothing is copied |
| Interpreter.BlocksAreNew | libpixyusb/libpixyusb/src/host/libpixyusb/src/pixyinterpreter.cpp:377-387 | returns 1 exactly when the fresh flag is set and 0 exactly when it is clear |
| Interpreter.UpdateFrame | libpixyusb/libpixyusb/src/host/libpixyusb/src/pixyinterpreter.cpp:104-122 | -201 when not running and -202 while a frame is awaited, both with no change; otherwise the engine's asynchronous status for the frame request is returned and waiting starts exactly when it is 0 |
| Interpreter.ResetFrameWait | libpixyusb/libpixyusb/src/host/libpixyusb/src/pixyinterpreter.cpp:131-133 | clears the frame wait and nothing else |
| Interpreter.SendCommand | libpixyusb/libpixyusb/src/host/libpixyusb/src/pixyinterpreter.cpp:151-189 | -201 when not running; a cached name is called without resolution; an unresolvable name returns -152 with the cache unchanged; a resolved name is cached before the call; the call's status is the return value |
| Interpreter.InterpretBa81 | libpixyusb/libpixyusb/src/host/libpixyusb/src/pixyinterpreter.cpp:256-262 | a frame ends the wait and replaces the frame buffer with the first width*height pixel bytes; nothing else changes |
| Interpreter.PlainBlocks | libpixyusb/libpixyusb/src/host/libpixyusb/src/pixyinterpreter.cpp:314-331 | a report yields word-count/5 NORMAL blocks, the i-th decoded from the i-th record |
| Interpreter.ColorCodeBlocks | libpixyusb/libpixyusb/src/host/libpixyusb/src/pixyinterpreter.cpp:347-361 | a report yields word-count/6 COLOR_CODE blocks, the i-th decoded from the i-th record |
| Interpreter.InterpretCcb1 | libpixyusb/libpixyusb/src/host/libpixyusb/src/pixyinterpreter.cpp:264-280 | a plain report leaves the last `capacity` of old blocks followed by its blocks, sets the fresh flag and changes nothing else |
| Interpreter.InterpretCcb2 | libpixyusb/libpixyusb/src/host/libpixyusb/src/pixyinterpreter.cpp:283-312 | a colour-code report leaves the last `capacity` of its colour-code blocks followed by its plain blocks (old blocks discarded), sets the fresh flag and changes nothing else |
| Interpreter.InterpretData | libpixyusb/libpixyusb/src/host/libpixyusb/src/pixyinterpreter.cpp:207-254 | a BA81 hint ends the wait and installs the first width*height pixel bytes; a CCB1 hint leaves the last `capacity` of old blocks followed by its plain blocks; a CCB2 hint leaves the last `capacity` of its colour-code then plain blocks; both reports set the fresh flag; every other message changes nothing; the capacity invariant, thread flags and cache are always kept |
| Interpreter.ServiceStep | libpixyusb/libpixyusb/src/host/libpixyusb/src/pixyinterpreter.cpp:191-204 | a running, non-closing interpreter hands a delivered message to the message callback; a step of a stopped or closing interpreter, or one that delivers nothing, changes nothing; no step changes the cache or the running flag |
| InterpreterProps.Ccb2ColorCodesFirst | libpixyusb/libpixyusb/src/host/libpixyusb/src/pixyinterpreter.cpp:293-311 | after a colour-code report every COLOR_CODE block precedes every NORMAL block, eviction included |
| InterpreterProps.Ccb2DropsOldBlocks | libpixyusb/libpixyusb/src/host/libpixyusb/src/pixyinterpreter.cpp:291-293 | after a colour-code report every block in the buffer came from that report |
| InterpreterProps.TwoPlainReports | libpixyusb/libpixyusb/src/host/libpixyusb/src/pixyinterpreter.cpp:335-343 | two plain reports on an empty buffer leave all their blocks in order when they fit, else exactly the newest `capacity` of them |
| InterpreterProps.ThousandBlockScenario | libpixyusb/libpixyusb/src/host/libpixyusb/src/pixyinterpreter.cpp:335-339 | with capacity 1000, reports of 500 then 505 records leave a full buffer of records 6..500 of the first report followed by all 505 of the second |
| InterpreterProps.FrameBetweenReports | libpixyusb/libpixyusb/src/host/libpixyusb/src/pixyinterpreter.cpp:256-262 | a frame arriving between two block reports does not change the blocks or the fresh flag they leave |
| InterpreterProps.FrameReadBack | libpixyusb/libpixyusb/src/host/libpixyusb/src/pixyinterpreter.cpp:124-129 | reading the frame returns the first width*height bytes of the last frame that arrived, also after a later frame request or block report |
| InterpreterProps.FrameRequestGuard | libpixyusb/libpixyusb/src/host/libpixyusb/src/pixyinterpreter.cpp:109-121 | after a successful frame request a second is refused with -202, and both a reset of the wait and an arriving frame let the next request reach the engine |
| InterpreterProps.CommandCacheHit | libpixyusb/libpixyusb/src/host/libpixyusb/src/pixyinterpreter.cpp:166-182 | the first command with a name resolves it; the second with the same name resolves nothing and calls the id the first resolved |
| InterpreterProps.CacheStaysFromEngine | libpixyusb/libpixyusb/src/host/libpixyusb/src/pixyinterpreter.cpp:166-182 | when every cached id is the one the engine resolves the name to, that stays true after any command on that engine |
| InterpreterProps.FailedLookupRetried | libpixyusb/libpixyusb/src/host/libpixyusb/src/pixyinterpreter.cpp:169-177 | a failed resolution caches nothing, so the next command with that name resolves again |
| InterpreterProps.CacheIsWriteOnce | libpixyusb/libpixyusb/src/host/libpixyusb/src/pixyinterpreter.cpp:179 | a command never removes or changes a cached procedure id |
| InterpreterProps.ReadClearsFresh | libpixyusb/libpixyusb/src/host/libpixyusb/src/pixyinterpreter.cpp:95-101 | after a report the blocks are reported fresh once; a read (of any size, even 0) makes them stale and keeps the blocks |
| InterpreterProps.Run | libpixyusb/libpixyusb/src/host/libpixyusb/src/pixyinterpreter.cpp:79-204 | over any sequence of reads, frame requests, resets, commands, arrivals and closes the capacity invariant holds and no cached procedure id is lost or changed |
| InterpreterProps.IgnoredMessages | libpixyusb/libpixyusb/src/host/libpixyusb/src/pixyinterpreter.cpp:210-253 | a null message, a string, an unknown message type and the CCQ1, CMV1, CMV2 and unknown hints leave the interpreter exactly as it was |
| Packing.PackRgb | libpixyusb/libpixyusb/src/host/libpixyusb/src/pixy.cpp:363 | the LED word holds blue in byte 0, green in byte 1, red in byte 2 and nothing in byte 3 |
| Packing.PackWhiteBalance | libpixyusb/libpixyusb/src/host/libpixyusb/src/pixy.cpp:462 | the white-balance word holds green in byte 0, red in byte 1, blue in byte 2 and nothing in byte 3 |
| Packing.PackExposure | libpixyusb/libpixyusb/src/host/libpixyusb/src/pixy.cpp:513 | the exposure word holds the gain in bits 0-7 and the compensation in bits 8-23 |
| Packing.ExposureRoundTrip | libpixyusb/libpixyusb/src/host/libpixyusb/src/pixy.cpp:545-546 | unpacking a packed exposure word returns the original gain and compensation |
| Packing.ExposureRepack | libpixyusb/libpixyusb/src/host/libpixyusb/src/pixy.cpp:545-546 | re-packing an unpacked word gives it back exactly when its top byte is zero |
| Packing.ColourWordsPermuted | libpixyusb/libpixyusb/src/host/libpixyusb/src/pixy.cpp:363 | the LED word of (r, g, b) equals the white-balance word of (g, b, r) |
| Packing.ColourWordsAgreeOnlyOnGrey | libpixyusb/libpixyusb/src/host/libpixyusb/src/pixy.cpp:462 | the two helpers pack a triple to the same word exactly when its three components are equal |
| Registry.CloseAll | libpixyusb/libpixyusb/src/host/libpixyusb/src/pixy.cpp:219-237 | every registered interpreter is closed (not running afterwards) and the map is left empty; an empty map closes nothing |
| Registry.PixyGetBlocks | libpixyusb/libpixyusb/src/host/libpixyusb/src/pixy.cpp:239-252 | -1 and no change for an unknown uid; -150 and no change for a null destination; otherwise exactly min(max, buffer size) of the oldest blocks are returned with that count, and only that uid's fresh flag is cleared |
| Registry.PixyBlocksAreNew | libpixyusb/libpixyusb/src/host/libpixyusb/src/pixy.cpp:254-267 | -1 for an unknown uid, else 1 or 0 exactly as that uid's fresh flag |
| Registry.PixyCamUpdateFrame | libpixyusb/libpixyusb/src/host/libpixyusb/src/pixy.cpp:269-282 | -1 and no change for an unknown uid, else the uid's own frame request |
| Registry.PixyCamGetFrame | libpixyusb/libpixyusb/src/host/libpixyusb/src/pixy.cpp:284-298 | -1 and no frame for an unknown uid, else 0 and that uid's frame bytes; nothing changes |
| Registry.PixyCamResetFrameWait | libpixyusb/libpixyusb/src/host/libpixyusb/src/pixy.cpp:300-314 | -1 and no change for an unknown uid, else 0 with that uid's wait reset |
| Registry.PixyCommand | libpixyusb/libpixyusb/src/host/libpixyusb/src/pixy.cpp:316-335 | -1 and no change for an unknown uid, else the uid's own command; a reply's status is the return value and no reply means a negative return |
| Registry.OthersUntouched | libpixyusb/libpixyusb/src/host/libpixyusb/src/pixy.cpp:245-251 | no per-uid entry point adds or removes a uid or changes another uid's interpreter |
| Registry.SentinelIsUnambiguous | libpixyusb/libpixyusb/src/host/libpixyusb/src/pixy.cpp:260-266 | for block reads and the freshness query, -1 is returned if and only if the uid is unknown |
| Registry.CommandSentinelIsAmbiguous | libpixyusb/libpixyusb/src/host/libpixyusb/src/pixy.cpp:324-334 | for commands a registered uid whose engine reports -1 returns the same -1 as an unknown uid, on the first (uncached) call as well as later ones |
| Api.Query | libpixyusb/libpixyusb/src/host/libpixyusb/src/pixy.cpp:365-374 | a negative command result is returned unchanged, otherwise the camera's 32-bit answer read as a signed int; -1 for an unknown uid and -201 for a stopped interpreter |
| Api.PixyLedSetRgb | libpixyusb/libpixyusb/src/host/libpixyusb/src/pixy.cpp:357-375 | the uid's `led_set` command is run with the packed LED word as its one signed argument, cached or not; the registry is the one that command leaves; a negative status is returned unchanged, otherwise the camera's answer read as a signed int (and -1 for an unknown uid, -201 for a stopped interpreter) |
| Api.PixyCamSetWhiteBalanceValue | libpixyusb/libpixyusb/src/host/libpixyusb/src/pixy.cpp:457-474 | the uid's `cam_setWBV` command is run with the packed white-balance word as its one unsigned argument, cached or not; the registry is the one that command leaves; a negative status is returned unchanged, otherwise the camera's answer read as a signed int (and -1 for an unknown uid, -201 for a stopped interpreter) |
| Api.PixyCamSetExposureCompensation | libpixyusb/libpixyusb/src/host/libpixyusb/src/pixy.cpp:508-525 | the uid's `cam_setECV` command is run with the packed exposure word as its one unsigned argument, cached or not; the registry is the one that command leaves; a negative status is returned unchanged, otherwise the camera's answer read as a signed int (and -1 for an unknown uid, -201 for a stopped interpreter) |
| Api.PixyCamGetExposureCompensation | libpixyusb/libpixyusb/src/host/libpixyusb/src/pixy.cpp:527-549 | a negative command result is returned first; then a null pointer gives -150; otherwise 0 and a gain and compensation that re-pack to the low 24 bits of the answer; the registry is the one the command leaves |
| Api.PixyGetFirmwareVersion | libpixyusb/libpixyusb/src/host/libpixyusb/src/pixy.cpp:631-658 | any null pointer gives -150 with nothing issued; otherwise a negative command result is returned, else 0 and the three version words |
| Api.PixyCamGetWhiteBalanceValue | libpixyusb/libpixyusb/src/host/libpixyusb/src/pixy.cpp:441-455 | the result is the wrapper's int result taken modulo 2^32, so -1 for an unknown uid reads as 0xFFFFFFFF |
| Api.ExposureSetThenGet | libpixyusb/libpixyusb/src/host/libpixyusb/src/pixy.cpp:508-549 | on a camera that keeps the exposure word `cam_setECV` sends it, a set followed by a get returns 0 twice and gives back the gain and compensation that were set; the session may have any other names cached (an enumerated session has `getUID`), as long as a cached exposure name has the camera's id |
| Api.EnumeratedSessionKnowsCamera | libpixyusb/libpixyusb/src/host/libpixyusb/src/pixy.cpp:185-191 | the interpreter enumeration registers is running and has no exposure name cached, so the set-then-get round trip applies to it |
| Api.FirmwareNullCheckFirst | libpixyusb/libpixyusb/src/host/libpixyusb/src/pixy.cpp:639-642 | with any null output pointer the firmware query issues nothing: its outcome is the same for every engine, it returns -150 and leaves the registry alone, and an unknown uid gets -150 rather than -1 |
| Api.ExposureNullCheckLast | libpixyusb/libpixyusb/src/host/libpixyusb/src/pixy.cpp:531-541 | with a null pointer the exposure query still returns -1 for an unknown uid, and for a known uid it resolves and caches the procedure before returning -150 |
| ErrorText.DecimalString | libpixyusb/libpixyusb/src/host/libpixyusb/src/pixy.cpp:354 | the printed code is a minus sign for negatives followed by decimal digits whose value is the magnitude, with no leading zero |
| ErrorText.FindFrom | libpixyusb/libpixyusb/src/host/libpixyusb/src/pixy.cpp:344-352 | the scan finds the first entry at or after the start with the code, and finds nothing exactly when no such entry exists |
| ErrorText.PixyError | libpixyusb/libpixyusb/src/host/libpixyusb/src/pixy.cpp:337-355 | a code in the table prints the text of its first matching entry; any other code prints "Undefined error: [code]"; either line ends in a newline |
| ErrorText.KnownCodes | libpixyusb/libpixyusb/src/host/libpixyusb/src/pixy.cpp:81-87 | 0 prints "Success" and -152 prints "Pixy Error: Invalid command", each on its own line |
| ErrorText.UndefinedCodes | libpixyusb/libpixyusb/src/host/libpixyusb/src/pixy.cpp:77-89 | -150, -201 and -202 are not in the table and print as "Undefined error: [code]" |
| Enumerate.UnwindReleasesWhatWasHeld | libpixyusb/libpixyusb/src/host/libpixyusb/src/pixy.cpp:133-208 | whichever step fails, the cleanup path releases exactly the resources acquired before it, each once, and closes the handle after the interfaces |
| Enumerate.Try | libpixyusb/libpixyusb/src/host/libpixyusb/src/pixy.cpp:125-208 | a device is skipped exactly when its ids are not the camera's; a failure names the first USB step that failed, or the `getUID` step when every USB step succeeded, and runs that step's cleanup; a device registers exactly when every USB step succeeds, `getUID` resolves and its call returns 0; its uid is then the word `getUID` answered, and its interpreter is the one start-up just made: running, not closing, not waiting, no blocks, the `cam_getFrame` id as frame procedure and only `getUID` cached |
| Enumerate.PixyEnumerate | libpixyusb/libpixyusb/src/host/libpixyusb/src/pixy.cpp:91-217 | libusb init and list failures return their status with an empty registry; otherwise the uids are the first `max` registering devices' uids in list order, the count is their number (never above `max`), the registry holds exactly those uids, and each maps to the interpreter of the last tried device that registered it; the number of devices tried is returned too, and it is all of them unless `max` uids were found first |
| Enumerate.PartialFailure | libpixyusb/libpixyusb/src/host/libpixyusb/src/pixy.cpp:158-161 | when the second of two cameras fails to claim interface 1 it releases interface 0 and closes its handle, and the first camera's uid is the whole result |

## Left out

- Threads and locks: the map's shared/exclusive lock, the three interpreter
  mutexes, the service thread's loop and `yield`. The model is sequential.
  A service step is an explicit transition taking the message (if any) it
  delivers.
- The Chirp engine itself is left out: procedure resolution, calls,
  `service`, `handleXdata`, and the marshalling of `va_list` arguments.
  `Engine` stands in for it. A synchronous reply is reduced to a status,
  the first 32-bit output word and the version triple.
- USB I/O: `usblink.cpp`, the libusb calls (as statuses only), `usleep`,
  kernel-driver detaching (its result is ignored by the code) and freeing
  the device list.
- The Java robot programs and debug logging. `pixy_error` is modelled as
  the line it prints, newline included, rather than as a write to stdout.
- Raw memory copies are modelled as sequences: the frame `memcpy` and the
  pointer casts of payload arrays. A short payload would make the library
  read past its end. The model instead requires the payload to hold the
  declared records (`WellFormed`) and the frame to hold width*height bytes.
- The constant values of `pixy.h`, `pixyinterpreter.hpp`, `blob.h` and
  `chirp.hpp` are not part of this model. Capacity and frame size are
  parameters; the other values are stated in the introduction.
- Interpreter.Init: start-up cannot fail in the code (it always returns 0).
  The enumeration's branch for a failed start-up is therefore unreachable
  and not modelled.
- Enumerate.PixyEnumerate: when two devices report the same uid the code
  keeps the later interpreter and drops the earlier one without closing
  it. The model keeps the later one too, but it has no notion of the
  dropped interpreter's resources, so the leak is not stated.
- Interpreter.GetBlocks: the exact count is stated unless both the maximum
  and the buffer size are at least 65536. Only then does the code's 16-bit
  counter wrap, and the model truncates the count the same way. Through
  `pixy_get_blocks`, whose maximum is a 16-bit value, the count is always
  exact (Registry.PixyGetBlocks).
- Api.Query: the wrappers that return an `int` read the camera's 32-bit
  answer as a signed value (`ToInt32`). Eleven simple wrappers are
  modelled with `Query` and carry no contracts of their own:
  - `led_setMaxCurrent`, `led_getMaxCurrent`;
  - the auto white balance get and set;
  - the auto exposure get and set;
  - the brightness get and set;
  - the servo position get and set;
  - the servo frequency set.
- Blocks are returned to the caller as values. The C `Block` struct's
  memory layout and the pointer to the caller's array are not modelled; a
  null destination is a `false` flag.
