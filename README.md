# tama_websocket bridge core in Dafny

This project models the sequential core of tama_websocket. That program is a websocket server that runs the tamalib Tamagotchi P1 emulator and relays its screen, tones and log lines to browser clients. It also takes button events back from those clients. It is written in C. Three pieces are modelled:

- **Snapshot codec** (`state_codec.dfy`, with the engine state in `engine.dfy`).
  - `state_save` writes the engine's registers, timers, interrupt slots, RAM and I/O into a fixed 849-byte blob: 63 + 6·3 + 640 + 128.
  - The blob starts with the magic `TLST` and version 3. Every field is masked to its architectural width and stored little-endian.
  - `state_load` checks the magic and the version, then writes every field back into the engine and triggers a hardware refresh.
  - The engine state is a class whose fields the two methods read and write. The save buffer is an array filled at a running offset.
  - Both methods are proved against the specification functions `Encode` and `Decode`. On those functions the project proves the round trip, that saving and loading are idempotent, the layout, and the per-byte bounds.
- **Bridge callbacks and handlers** (`bit_pack.dfy`, `json.dfy`, `bridge.dfy`).
  - The bit packing behind `bool_t_to_base64`.
  - The screen, icon, tone and log callbacks the engine calls.
  - The button pull `hal_handler`.
  - The websocket message and button-event handlers. JSON arrives already parsed, as a value of the `Json` datatype.
  - The globals of `src/main.c` are fields of a `Hal` class. Broadcasts, console lines and calls into the engine are appended to ghost logs.
  - The class invariant states the broadcast protocol: tone frames alternate on/off at phase 0, and no screen frame repeats its predecessor.
- **ROM loader** (`program.dfy`). `program_load_b64` turns the decoded ROM bytes into 12-bit instruction words, filling a fresh array in a loop.

`types.dfy` holds the integer subset types (`u8`, `u16`, `u32`) and the `Option` and `Result` datatypes.

Integer conventions:
- C masks `v & (2^k - 1)` are written `v % 2^k`, and shifts `v >> k` are written `v / 2^k`.
- An OR of bit fields that do not overlap is written as a sum.
- A `bool_t` byte holding 0 or 1 (a pixel, an icon, a button, the audio flag) is a `bool`.

What the modelled code does not do, and the model therefore does not do either:
- Loading never checks the blob's length; it trusts it.
- Logging is not filtered by a minimum severity: the filter is a bitwise AND with a fixed mask.
- Only `btn` messages are acted on; every other message type is reported and dropped.
- There are no pending save or load flags and no forced screen broadcast on connect.

## Model

| member | source | states |
|---|---|---|
| StateCodec.StateSave | src/state.c:52-202 | the buffer is fresh, has `SAVE_SIZE` bytes, `*out_len` is `SAVE_SIZE`, and its contents are `Encode` of the engine state |
| StateCodec.PutHeader | src/state.c:66-73 | bytes 0 to 4 are the magic `TLST` and the version, and the offset ends at 5 |
| StateCodec.PutRegisters | src/state.c:75-100 | bytes 5 to 15 are the masked registers written at the running offset, which ends at 16 |
| StateCodec.PutTimers | src/state.c:102-175 | bytes 16 to 62 are the ten timers, the programmable timer bytes and the call depth, and the offset ends at 63 |
| StateCodec.PutInterrupts | src/state.c:177-186 | the loop over the interrupt slots writes three masked bytes per slot, in slot order, and advances the offset by 18 |
| StateCodec.PutNibbles | src/state.c:188-198 | the RAM and I/O loops write one nibble per memory cell and advance the offset by the memory size |
| StateCodec.SaveSizeAndHeader | src/state.c:57-73 | every saved blob has exactly `63 + INT_SLOT_NUM*3 + MEM_RAM_SIZE + MEM_IO_SIZE` bytes, begins with `TLST` and version 3, and passes the load's header check |
| StateCodec.EncodeLayout | src/state.c:57-198 | the interrupt, RAM and I/O areas start at offsets 63, 81 and 721 and end exactly at the save size |
| StateCodec.EncodeRegistersAt | src/state.c:66-100 | byte by byte: the magic, the version, PC/X/Y as low byte then high byte masked to 5/4/4 bits, then A, B, NP, SP and flags under their masks |
| StateCodec.EncodeTimersAt | src/state.c:102-175 | each u32 field occupies four little-endian bytes at its offset; the programmable timer flag is masked to one bit |
| StateCodec.EncodeNibbleAt | src/state.c:188-198 | byte `k` of the RAM area is the low nibble of RAM cell `k`, and byte `k` of the I/O area the low nibble of I/O cell `k` |
| StateCodec.U32Join | src/state.c:102-105 | joining the four little-endian bytes of a u32 gives the value back (the split is lossless) |
| StateCodec.U16Join | src/state.c:75-85 | joining the low byte and the masked high byte of a register gives the register modulo 2^13 or 2^12 |
| StateCodec.EncodeBounds | src/state.c:75-198 | every PC/X/Y high byte, interrupt byte and memory byte of a saved blob is within its mask: high bytes below 0x20/0x10, factor and mask below 16, triggered at most 1, nibbles below 16 |
| StateCodec.RoundTrip | src/state.c:75-317 | loading a saved blob passes the header check and restores every field under its mask (PC mod 2^13, X and Y mod 2^12, A/B/flags mod 16, NP mod 32, timer flag mod 2, nibbles mod 16; u32 fields exactly) |
| StateCodec.DecodeFits | src/state.c:230-317 | whatever blob is loaded, every field written is already within its architectural width |
| StateCodec.EncodeMasked | src/state.c:75-198 | saving only looks at the architectural bits: a state and its masked version save to the same blob |
| StateCodec.SaveLoadSave | src/state.c:52-317 | save, load, save yields the first blob again |
| StateCodec.LoadSaveLoad | src/state.c:204-317 | load, save, load yields the state of the first load |
| StateCodec.DecodeRegisters | src/state.c:230-252 | the registers read from bytes 5 to 15 are those that were saved, under their masks |
| StateCodec.DecodeTimers | src/state.c:254-282 | the ten u32 timers read from bytes 16 to 55 are exactly those that were saved |
| StateCodec.DecodeTail | src/state.c:284-294 | the timer flag, data, reload and call depth read from bytes 56 to 62 are those that were saved |
| StateCodec.DecodeInterrupts | src/state.c:296-305 | the interrupt slots read back are the saved slots under their masks |
| StateCodec.DecodeMemory | src/state.c:307-317 | the RAM and I/O cells read back are the saved cells' nibbles |
| StateCodec.LoadRegisters | src/state.c:230-252 | each register field gets the little-endian value at its offset with the high byte masked, or the masked byte |
| StateCodec.LoadTimers | src/state.c:254-282 | each timer field gets the little-endian u32 at its offset |
| StateCodec.LoadTail | src/state.c:284-294 | the timer flag gets the masked byte; data and reload their bytes; the call depth the u32 at 59 |
| StateCodec.LoadScalars | src/state.c:230-294 | every scalar field equals the corresponding field of `Decode` of the blob |
| StateCodec.LoadInterrupts | src/state.c:296-305 | the slot array becomes the masked slots read from three bytes each, and the offset advances by 18 |
| StateCodec.LoadNibbles | src/state.c:307-317 | each memory array becomes the nibbles of the bytes at the offset, and the offset advances by its size |
| StateCodec.CheckHeader | src/state.c:216-227 | a blob passes exactly when it starts with `TLST` and version 3; the magic is checked first, so a wrong magic is reported whatever the version, and a wrong version is reported with the byte found |
| StateCodec.LoadFields | src/state.c:230-321 | after a good header the engine state is `Decode` of the blob and the final offset equals the save size, so the "Failed to load" branch is unreachable |
| StateCodec.StateLoad | src/state.c:204-324 | the result reports the header check; a wrong magic or version changes nothing and does not refresh; otherwise the engine state is `Decode` of the blob and exactly one refresh, seeing that state, follows |
| BitPack.PackBits | src/main.c:133-149 | no output when the length is not a multiple of 8; otherwise the nested loop yields `Pack(src)` |
| BitPack.GroupStep | src/main.c:144-146 | OR-ing flag `8i+7-j` into bit `j` adds `2^j` times the flag to the bits already placed, which stay below `2^j`, so the byte stays below 256 |
| BitPack.PackedBit | src/main.c:140-147 | bit `j` of packed byte `i` is `src[8i+7-j]`, so `src[8i]` is the most significant bit; the packed length is `len/8` |
| BitPack.UnpackPack | src/main.c:140-147 | packing is invertible: unpacking the packed bytes gives the flags back |
| BitPack.PackUnpack | src/main.c:140-147 | every byte sequence is the packing of some flags, namely its own bits |
| BitPack.BitOfValue | src/main.c:144-146 | in the value built from flags most significant first, binary digit `j` is the flag `j` places from the end |
| Json.GetObjectItem | src/main.c:248 | an item is found exactly when the node is an object with a member of that key, and then it is the value of the first such member |
| Json.FirstMemberWins | src/main.c:313 | with duplicate keys, the first member is the one the handlers see |
| Bridge.IsLogEnabled | src/main.c:67-70 | with `log_levels = LOG_ERROR \| LOG_INFO`, a level is enabled exactly when one of its two lowest bits is set |
| Bridge.AndBit | src/main.c:67-70 | a one-bit level passes the mask `log_levels & level` exactly when the mask has that bit |
| Bridge.LogFilter | src/main.c:57-70 | `log_levels & level` is non-zero exactly when one of the level's two lowest bits is set |
| Bridge.DefaultLogLevels | src/main.c:57 | errors and information are enabled; memory, CPU and interrupt logging are not |
| Bridge.Hal.HalLog | src/main.c:72-92 | an enabled level prints one console line (stderr iff the level is `LOG_ERROR`) and broadcasts one log frame with the level and format; any other level does nothing |
| Bridge.Hal.constructor | src/main.c:49-57 | the buffers start cleared, the frequency at 0, audio off and the cached screen message empty |
| Bridge.Hal.Pixels | src/main.c:167 | the matrix as the packer reads it through the cast: pixel `(x, y)` at index `32y + x` |
| Bridge.MatrixBytePixel | src/main.c:167 | bit `j` of matrix byte `i` is the pixel in row `i/4`, column `8(i%4)+7-j` |
| Bridge.ScreenMessageSize | src/main.c:153-163 | 88 base64 characters of matrix, 4 of icons, the 31-character envelope and the terminator fill the 124-byte buffer exactly |
| Bridge.Hal.HalUpdateScreen | src/main.c:151-174 | the frame is built from the packed matrix and icons; it is broadcast exactly when it differs from the cached one, and it becomes the cached one; the broadcast history keeps no two equal screens in a row |
| Bridge.UpdateScreenTwice | src/main.c:165-173 | two updates with nothing drawn in between broadcast at most once |
| Bridge.Hal.HalSetLcdMatrix | src/main.c:176-179 | only `matrix_buffer[y][x]` changes: the flattened pixels are the old ones with index `32y + x` replaced |
| Bridge.Hal.HalSetLcdIcon | src/main.c:181-184 | only `icon_buffer[icon]` changes |
| Bridge.Hal.HalSetFrequency | src/main.c:186-192 | the frequency becomes `freq`; the phase resets to 0 only when it changed, and the same frequency changes nothing |
| Bridge.Hal.HalPlayFrequency | src/main.c:194-205 | a tone frame with the current frequency, the phase and the new flag is broadcast exactly when the flag flips; the tone frames alternate on and off, all at phase 0 |
| Bridge.ToneOnThenRetune | src/main.c:186-205 | switching a 2200 dHz tone on broadcasts `f=2200, p=0, e=1`; retuning to 1800 dHz while it plays and enabling it again broadcasts nothing |
| Bridge.Hal.HalHandler | src/main.c:207-214 | returns 0 and calls the engine for left, middle, right and tap in that order, after which the engine holds every button as buffered |
| Bridge.PullsDeliverBuffer | src/main.c:207-214 | after the four calls, the last state the engine received for each button is the buffered one |
| Bridge.CheckBtnEvent | src/main.c:242-293 | the checks stop at the first failure, in the code's order; an accepted event names one of the four buttons |
| Bridge.BtnEventAccepted | src/main.c:248-289 | an event is accepted exactly when `b` is a number in {LEFT, MIDDLE, RIGHT, TAP} and `s` is a number in {PRESSED, RELEASED}; the event is then `b` with pressed iff `s` is 1 |
| Bridge.Hal.HandleWsEventBtn | src/main.c:242-293 | returns 0; an accepted event sets `btn_buffer[b]` and nothing else; any other payload leaves the buffer unchanged and prints its one diagnostic |
| Bridge.ButtonExamples | src/main.c:242-293 | `b=2, s=1` in a `btn` message presses the right button; `b=99` is refused as an invalid code |
| Bridge.RouteMessage | src/main.c:295-343 | a message goes to the button handler exactly when it parsed, `t` is the string `btn` and `e` is present, and then `e` is what is handed on; a failed parse is dropped with a diagnostic exactly when an error position is known; a parsed message that is dropped always gets a diagnostic |
| Bridge.RoutedToButtons | src/main.c:300-334 | a message reaches the button handler exactly when it parsed, `t` is the string `btn` and `e` is present; `e` is what is handed on |
| Bridge.OtherTypesDropped | src/main.c:333-338 | any other string type with a payload is reported as an unknown event type and dropped |
| Bridge.Hal.HandleWsMessage | src/main.c:295-343 | returns 0; a routed message has exactly the button handler's effect; a dropped one leaves the buttons unchanged and prints at most its one diagnostic |
| Program.ProgramLoadB64 | src/program.c:50-80 | with no ROM text it returns NULL and leaves `*size` alone; otherwise `*size` is half the decoded length truncated to 32 bits, and the fresh program holds `LoadedWords` of the bytes, built with 32-bit indices |
| Program.LoadedWords | src/program.c:67-77 | `*size` words, half the decoded length truncated to 32 bits, each below 4096 |
| Program.WrapIndex | src/program.c:75-76 | the `uint32_t` indices `2*i` and `2*i+1` equal the indices of pair `i % 2^31` |
| Program.LoadedWordWraps | src/program.c:67-77 | word `i` of the loaded program is repacked word `i % 2^31` of the image |
| Program.NoWrapBelowLimit | src/program.c:67-77 | for images shorter than 2^32 + 2 bytes no index wraps, and the program is exactly the repacked image |
| Program.LastWordWraps | src/program.c:75-76 | for an image of 2^32 + 2 bytes the last word, index 2^31, is read from bytes 0 and 1 again |
| Program.Word | src/program.c:76 | the word's high nibble is the low nibble of the first byte and its low byte is the second byte, so every word is below 4096 |
| Program.Repack | src/program.c:67-77 | there are `floor(len/2)` words, each below 4096, made from bytes `2i` and `2i+1` |
| Program.TrailingByteIgnored | src/program.c:67 | a trailing odd byte does not change the program |
| Program.UpperNibbleIgnored | src/program.c:76 | changing the upper nibble of a pair's first byte does not change the program |
| Program.RepackAppend | src/program.c:75-77 | word order is preserved: repacking two byte runs split at an even offset repacks each run |
| Program.RepackUnrepack | src/program.c:75-77 | repacking the stored form of any program of 12-bit words gives that program |
| Program.UnrepackRepack | src/program.c:75-77 | the stored form of the repacked words is the image with its trailing byte dropped and its upper nibbles cleared, so the loader forgets exactly those |

## Left out

- The websocket server and its callbacks: socket setup, `ws_sendframe_bcast`, `onopen`, `onclose`, `onmessage` and `main`. This is network I/O. A broadcast is an append to the ghost log `sent`.
- cJSON parsing and `cJSON_Delete`. This is a foreign library. A message arrives as a `ParseResult`, and a number as its integer `valueint`. The conversion from double to int is not modelled.
- Base64 encoding and decoding (RFC 4648 section 4).
  - The model carries the packed bytes in a screen frame instead of the text.
  - The ROM decoder is a function parameter. A decoder failure, after which `rom_len` is unset in the C code, is not modelled.
- Text formatting with `snprintf` and `vfprintf`.
  - Frames and console lines are structured values. Because the encoding is injective, the `strcmp` between screen messages becomes equality of frames.
  - The arguments of a log call are not modelled. The model keeps the format string, which is also what the broadcast carries.
- `hal_get_timestamp`, `hal_sleep_until` (the system clock) and `hal_halt` (process exit).
- The `printf` diagnostic of `bool_t_to_base64` for a bad length, and the FATAL console lines of `state_load` and `program_load_b64`. The error paths themselves are modelled.
- Allocation failure in `program_load_b64`, the unchecked `malloc` in `state_save`, and the buffers `hal_update_screen` never frees.
- Concurrency between the websocket thread and the emulation thread. Every operation is modelled as atomic.
- The tamalib engine.
  - `tamalib_get_state` is the `State` object.
  - `tamalib_refresh_hw` is the ghost log `refreshes`.
  - `tamalib_set_button` is the ghost log `buttonCalls`.
  - The nibble packing of the engine's memory behind `GET_RAM_MEMORY` and `SET_IO_MEMORY` is not visible here, so RAM and I/O are arrays of one byte per cell.
- StateCodec.StateLoad: requires a blob of at least `SAVE_SIZE` bytes once the header passes, because the C code reads that many bytes without checking the length.
- StateCodec.Le32: the C expression `save[num+3] << 24` shifts a promoted `int`, which overflows for bytes of 0x80 and above. The model takes the intended unsigned value.
- Bridge.Hal.HalSetLcdMatrix and Bridge.Hal.HalSetLcdIcon require in-range coordinates: the C code writes without a bounds check and relies on the engine to stay on the screen.
- BitPack.PackBits: the C loop index is an `int`, so `i*8+(7-j)` overflows once the length reaches 2^31; the model uses unbounded indices. The callers pass 512 and 8 flags.
- Bridge.Hal.Valid: `sin_pos` is only ever reset, never advanced, so it is always 0. It is kept as a field to mirror the source.
