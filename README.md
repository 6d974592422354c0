# Goldfish emulator drivers

A Dafny model of three paravirtual Linux drivers for the goldfish (Android
emulator) board, with proofs about the model:

- the audio transport `/dev/eac` (`arch/arm/mach-goldfish/audio.c`): a
  double-buffered byte channel driven by a cached buffer-status bitmask,
  an interrupt handler that replaces that bitmask, and an exclusive-open
  counter;
- the second framebuffer `goldfish_fbs2` (`drivers/video/goldfishfbs2.c`):
  screen geometry validation, RGB565 palette packing, rotation updates,
  scan-out panning and the base-update counter;
- the TTY multiplexer (`drivers/char/goldfish_tty.c`): up to eight lines,
  each with one owning tty and an open count, a three-store command
  sequence per buffer transfer, console setup and the count of probed lines
  that creates and deletes the driver.

Every driver reaches its device only through 32-bit registers. The model
(module `Mmio`) records register stores, in order, in an append-only log
of `RegWrite(base, offset, value)`. Register loads are nondeterministic, so
each operation receives the values it loads as parameters: the interrupt
status, READ_BUFFER_AVAILABLE, BYTES_READY and READ_SUPPORTED. A sleep
(`wait_event_interruptible`, `wait_event_timeout`) becomes the delivery of
interrupts from a sequence the caller supplies, until the awaited condition
holds. When the sequence runs out first, the call has not returned, and the
model reports `Pending`. User-memory copies become an oracle: `faultAt` is
the number of the chunk whose copy fails.

The state-changing parts are classes whose fields are the drivers' own
state:

- `GoldfishAudio.AudioDevice` holds `buffer_status`, the global
  `open_count` and the register log;
- `GoldfishFb.FbDevice` holds the current screen, `rotation`,
  `line_length`, `base_update_count` and the 16-entry `cmap` array;
- `GoldfishTty.TtyDriver` holds the `goldfish_ttys` array and
  `goldfish_tty_current_line_count`.

The audio read and write loops are `while` loops. Each is proved against a
recursive specification function (`ReadRun`, `WriteRun`) that says what the
whole call does, and the lemmas about those functions state what the
driver promises.

Two behaviours of the code differ from what a double-buffered design
would suggest, and the model keeps them as written:

- The audio interrupt handler replaces the cached status with the bits it
  reads rather than merging them in (`StatusAfterIrq`,
  `ReadCompletionWakesOnlyReader`).
- Release always writes 0 to INT_ENABLE, however many opens remain.

## Model

| member | source | states |
|---|---|---|
| `GoldfishAudio.RegionOffset` | arch/arm/mach-goldfish/audio.c:305-307 | each buffer lies inside the 65536-byte DMA region, and write buffer 1 alone starts at offset 0 |
| `GoldfishAudio.RegionsDisjoint` | arch/arm/mach-goldfish/audio.c:57-59 | the two write buffers and the read buffer share no byte |
| `GoldfishAudio.BitsRoundTrip` | arch/arm/mach-goldfish/audio.c:93-99 | the three status flags and the bitmask under AUDIO_INT_MASK encode each other both ways, with no bit outside the mask |
| `GoldfishAudio.HoldsIffMaskTest` | arch/arm/mach-goldfish/audio.c:152-153 | a wait condition holds exactly when the driver's masked test of `buffer_status` is non-zero (write: bit 0 or 1; read: bit 2) |
| `GoldfishAudio.StatusAfterIrq` | arch/arm/mach-goldfish/audio.c:237-243 | with a recognised bit, the cached status becomes exactly `raw & 7`; with none, it is unchanged |
| `GoldfishAudio.ReadCompletionWakesOnlyReader` | arch/arm/mach-goldfish/audio.c:240-241 | because the handler replaces the status, a read-buffer-full interrupt alone wakes a reader but leaves a writer asleep, whatever was cached before |
| `GoldfishAudio.Await` | arch/arm/mach-goldfish/audio.c:152-153 | a sleep takes no interrupt when its condition already holds, takes at most the supplied interrupts, and ends unsatisfied only after taking them all |
| `GoldfishAudio.SelectBuffer` | arch/arm/mach-goldfish/audio.c:155-159 | buffer 1 is chosen whenever it is empty, even if buffer 2 is empty too; once the write sleep has ended, the chosen buffer is empty |
| `GoldfishAudio.ClearEmpty` | arch/arm/mach-goldfish/audio.c:173-179 | handing a buffer to the device clears its own empty flag and keeps the other write flag and the read flag |
| `GoldfishAudio.ClearEmptyIsMaskOut` | arch/arm/mach-goldfish/audio.c:174-177 | clearing the flag is `buffer_status &= ~bit` on the bitmask |
| `GoldfishAudio.ChunkSize` | arch/arm/mach-goldfish/audio.c:149-151 | a chunk is the rest of the request capped at one buffer: it is at most both, and equal to one of them |
| `GoldfishAudio.ChunksAreBufferFulls` | arch/arm/mach-goldfish/audio.c:147-151 | the loop's chunks are `count / 16384` full buffers and then the non-zero remainder |
| `GoldfishAudio.ChunksCoverCount` | arch/arm/mach-goldfish/audio.c:147-186 | the chunks add up to the requested count, and each is between 1 and 16384 bytes |
| `GoldfishAudio.WriteRun` | arch/arm/mach-goldfish/audio.c:147-189 | a write takes at most the supplied interrupts, and is pending only after taking all of them |
| `GoldfishAudio.WriteRunCommands` | arch/arm/mach-goldfish/audio.c:173-179 | a write stores only into WRITE_BUFFER_1 or WRITE_BUFFER_2 of its own device, each value a chunk size from 1 to 16384 |
| `GoldfishAudio.WriteIssuesChunks` | arch/arm/mach-goldfish/audio.c:147-189 | a write whose user copies all succeed, and which returns, issues exactly its chunks in order and returns the whole count |
| `GoldfishAudio.WriteFaultReturnsEfault` | arch/arm/mach-goldfish/audio.c:162-167 | a write that reaches a failing user copy returns -EFAULT, whatever it had already issued |
| `GoldfishAudio.WriteFaultDiscards` | arch/arm/mach-goldfish/audio.c:162-167 | the commands issued before a failed copy are the request's first chunks, and the failing chunk issues none |
| `GoldfishAudio.TwentyThousandBytes` | arch/arm/mach-goldfish/audio.c:147-189 | 20000 bytes written after open go out as 16384 bytes from buffer 1, then 3616 bytes from buffer 2, and the write returns 20000 |
| `GoldfishAudio.RefillFirstCompletedBuffer` | arch/arm/mach-goldfish/audio.c:152-159 | with both buffers busy, a completion of buffer 1 alone lets a write continue into buffer 1 |
| `GoldfishAudio.SizeSub` | arch/arm/mach-goldfish/audio.c:133 | `count -= length` on a 32-bit `size_t` stays in range and is exact subtraction when length is between 0 and count |
| `GoldfishAudio.ReadRun` | arch/arm/mach-goldfish/audio.c:116-136 | a read takes at most the supplied interrupts, and a read with a non-zero count returns only after seeing the read buffer full |
| `GoldfishAudio.ReadRunStarts` | arch/arm/mach-goldfish/audio.c:117-118 | a read stores only into START_READ of its own device, each request between 1 and 16384 bytes |
| `GoldfishAudio.ReadReturnsCount` | arch/arm/mach-goldfish/audio.c:116-136 | if the device never reports more than each START_READ asked for and no copy fails, a read that returns returns exactly the requested count |
| `GoldfishAudio.Ioctl` | arch/arm/mach-goldfish/audio.c:218-225 | command 315 is refused with -1, and every other command returns 0 |
| `GoldfishAudio.AudioDevice.Probe` | arch/arm/mach-goldfish/audio.c:320-325 | both write buffers are registered at their region offsets, and the read buffer only when the device reports read support; nothing is pending, and the module-wide open counter keeps the value it had before the probe |
| `GoldfishAudio.AudioDevice.Remove` | arch/arm/mach-goldfish/audio.c:349 | the device is detached, so later opens fail with -ENODEV |
| `GoldfishAudio.AudioDevice.Open` | arch/arm/mach-goldfish/audio.c:192-209 | with no device, -ENODEV and no change; only the open that takes the counter from 0 to 1 succeeds, marks both write buffers empty and enables all three interrupts; any other open gets -EBUSY and changes nothing |
| `GoldfishAudio.AudioDevice.Release` | arch/arm/mach-goldfish/audio.c:211-216 | on an attached device, the counter drops by one and INT_ENABLE receives 0, however many opens remain |
| `GoldfishAudio.AudioDevice.Interrupt` | arch/arm/mach-goldfish/audio.c:227-247 | the new status is `StatusAfterIrq` of the old one, and the interrupt is claimed exactly when `raw & 7` is non-zero |
| `GoldfishAudio.AudioDevice.WaitEvent` | arch/arm/mach-goldfish/audio.c:152-153 | the wait loop leaves the status and the count of interrupts taken that `Await` describes |
| `GoldfishAudio.AudioDevice.WriteChunk` | arch/arm/mach-goldfish/audio.c:149-181 | one pass of the write loop picks an empty buffer, clears only its flag and stores the chunk size in its WRITE_BUFFER register |
| `GoldfishAudio.AudioDevice.Write` | arch/arm/mach-goldfish/audio.c:139-190 | the loop's stores, final status, outcome and interrupts taken are exactly those of `WriteRun` |
| `GoldfishAudio.AudioDevice.Read` | arch/arm/mach-goldfish/audio.c:106-137 | without read support, -ENODEV with nothing touched, for every count; otherwise the loop does exactly what `ReadRun` describes |
| `GoldfishFb.ConvertBitfield` | drivers/video/goldfishfbs2.c:91-96 | a zero-length channel converts to 0 |
| `GoldfishFb.ConvertStaysInField` | drivers/video/goldfishfbs2.c:91-96 | for each of the four channel layouts the probe declares, a converted value has no bit outside `[offset, offset + length)` |
| `GoldfishFb.PaletteEntryIsRgb565` | drivers/video/goldfishfbs2.c:104-108 | with the probe's layout, a palette entry is the RGB565 pixel: the top 5 bits of red, 6 of green and 5 of blue |
| `GoldfishFb.Rgb565RoundTrip` | drivers/video/goldfishfbs2.c:104-108 | each channel's top bits can be read back out of the packed 16-bit entry |
| `GoldfishFb.CheckVar` | drivers/video/goldfishfbs2.c:116-142 | 0 or -EINVAL, and 0 exactly when the request shows the current screen (width and height exchanged when the rotation parity differs): one screen wide, between one and two screens tall, with the same x offset, depth and grayscale |
| `GoldfishFb.ProbeVarAccepted` | drivers/video/goldfishfbs2.c:247-274 | the screen the probe sets up passes `check_var` against itself when twice the height does not wrap |
| `GoldfishFb.RotateBack` | drivers/video/goldfishfbs2.c:118-135 | a quarter turn accepted from a well-formed screen can be turned back: the old screen is accepted against the new one |
| `GoldfishFb.AcceptedKeepsFormat` | drivers/video/goldfishfbs2.c:136-141 | an accepted screen keeps the current x offset, depth and grayscale |
| `GoldfishFb.PanStaysInFrame` | drivers/video/goldfishfbs2.c:164 | for the probe's geometry, every pan the core allows gives the unwrapped address `smem_start + xres*2*yoffset`, and the visible window stays inside the allocation |
| `GoldfishFb.BaseUpdateIndex` | drivers/video/goldfishfbs2.c:166 | finds the first interrupt status with BASE_UPDATE_DONE; none before it has the bit |
| `GoldfishFb.RemoveFreeSizeMatchesProbe` | drivers/video/goldfishfbs2.c:316 | on the probe's screen, remove's `xres_virtual * yres_virtual * 2` equals the probe's `width * height * 4` |
| `GoldfishFb.RemoveFreesWrongSize` | drivers/video/goldfishfbs2.c:316 | after an accepted change of the virtual height, remove's size differs from the allocation (320x480: 307200 against 614400) |
| `GoldfishFb.FbDevice.AwaitBaseUpdate` | drivers/video/goldfishfbs2.c:166-167 | the wait takes interrupts up to and including the first with BASE_UPDATE_DONE, and the counter advances exactly when there is one |
| `GoldfishFb.FbDevice.Probe` | drivers/video/goldfishfbs2.c:243-283 | line length `2*width`, an RGB565 screen one screen wide and two screens tall, `width*height*4` bytes of buffer, a zeroed palette, then INT_ENABLE := BASE_UPDATE_DONE and SET_BASE := the buffer start |
| `GoldfishFb.FbDevice.Interrupt` | drivers/video/goldfishfbs2.c:74-89 | the counter goes up by exactly one when BASE_UPDATE_DONE is set, and any non-zero status, VSYNC alone included, is claimed |
| `GoldfishFb.FbDevice.SetColReg` | drivers/video/goldfishfbs2.c:98-114 | a register below 16 stores the packed colour there, touches no other entry and returns 0; any other register returns 1 and changes nothing |
| `GoldfishFb.FbDevice.SetPar` | drivers/video/goldfishfbs2.c:144-153 | a changed rotation recomputes the line length, is recorded and goes to SET_ROTATION; an unchanged one changes nothing; it returns 0, and the device then has the screen's rotation, so a second call is a no-op |
| `GoldfishFb.FbDevice.SetVar` | drivers/video/goldfishfbs2.c:116-153 | the result is `check_var`'s; on success the screen is replaced and, when its rotation differs from the device's, the line length becomes `2*xres` and SET_ROTATION receives the rotation, with nothing else changed otherwise; on refusal nothing changes |
| `GoldfishFb.FbDevice.PanDisplay` | drivers/video/goldfishfbs2.c:156-170 | SET_BASE receives `smem_start + xres*2*yoffset` (mod 2^32); the counter advances exactly when some interrupt acknowledges the move; the result is 0 either way |
| `GoldfishFb.FbDevice.Remove` | drivers/video/goldfishfbs2.c:311-326 | remove as corrected: the freed size is the probe's allocation, whatever the current screen |
| `GoldfishTty.OpenLine` | drivers/char/goldfish_tty.c:91-108 | 0 or -EBUSY, and -EBUSY exactly when another tty owns the line, in which case nothing changes; a successful open counts one more and keeps the line's base and interrupt, and on a consistent line the opener owns it afterwards |
| `GoldfishTty.CloseLine` | drivers/char/goldfish_tty.c:110-122 | a close by a tty that does not own the line changes nothing and stores nothing |
| `GoldfishTty.OpenCloseKeepConsistent` | drivers/char/goldfish_tty.c:97-120 | open and close keep each line owned exactly while its open count is positive |
| `GoldfishTty.OnlyFirstOpenEnables` | drivers/char/goldfish_tty.c:98-101 | an open stores CMD_INT_ENABLE exactly when it takes a free line |
| `GoldfishTty.OpenThenClose` | drivers/char/goldfish_tty.c:97-120 | a close by the owner undoes its open: the line is as before, and the interrupt was enabled and disabled again exactly when the line was free |
| `GoldfishTty.RefusedOpenThenClose` | drivers/char/goldfish_tty.c:104-115 | the close that follows a refused open changes nothing |
| `GoldfishTty.Transfer` | drivers/char/goldfish_tty.c:62-64 | a transfer is three stores to the line's registers: DATA_PTR, DATA_LEN, then CMD |
| `GoldfishTty.WriteRoom` | drivers/char/goldfish_tty.c:130-133 | write room is always 0x10000 |
| `GoldfishTty.ConsoleSetupAsWritten` | drivers/char/goldfish_tty.c:153-160 | as written, the only index that gets past the bound test yet lies outside the array is 8 |
| `GoldfishTty.ConsoleSetupReadsPastEnd` | drivers/char/goldfish_tty.c:155-157 | console index 8 reads `goldfish_ttys[8]`, one past the end |
| `GoldfishTty.ConsoleSetup` | drivers/char/goldfish_tty.c:153-160 | 0 or -ENODEV, and 0 exactly when the index names one of the eight lines and that line has a register base |
| `GoldfishTty.ConsoleSetupAgrees` | drivers/char/goldfish_tty.c:155-159 | the corrected check gives the written one's answer for every index except 8 |
| `GoldfishTty.TtyDriver.constructor` | drivers/char/goldfish_tty.c:52-54 | at load time, no line is probed and no driver exists |
| `GoldfishTty.TtyDriver.CreateDriver` | drivers/char/goldfish_tty.c:175 | a fresh, zeroed array of eight lines |
| `GoldfishTty.TtyDriver.SetUpLine` | drivers/char/goldfish_tty.c:247-251 | the line records its base and interrupt, keeping its open count and owner; every other line is unchanged; CMD receives CMD_INT_DISABLE |
| `GoldfishTty.TtyDriver.Open` | drivers/char/goldfish_tty.c:91-108 | the line array, the stores and the result are `OpenLine`'s, and every line stays consistent |
| `GoldfishTty.TtyDriver.Close` | drivers/char/goldfish_tty.c:110-122 | the line array and the stores are `CloseLine`'s, and every line stays consistent |
| `GoldfishTty.TtyDriver.DoWrite` | drivers/char/goldfish_tty.c:56-66 | the stores are the WRITE_BUFFER transfer of `count` bytes at the buffer address |
| `GoldfishTty.TtyDriver.Write` | drivers/char/goldfish_tty.c:124-128 | the whole buffer is handed over in one transfer, and `count` is returned |
| `GoldfishTty.TtyDriver.Interrupt` | drivers/char/goldfish_tty.c:68-89 | with nothing ready, IRQ_NONE and no store; otherwise a READ_BUFFER transfer of the bytes the tty core granted, and IRQ_HANDLED |
| `GoldfishTty.TtyDriver.ConsoleSetupLine` | drivers/char/goldfish_tty.c:153-160 | console setup over the live line array is `ConsoleSetup` of the lines' bases |
| `GoldfishTty.TtyDriver.Probe` | drivers/char/goldfish_tty.c:218-288 | a missing resource or an id that is not below 8 (compared unsigned): -EINVAL and no change; a failed driver creation returns its error and changes nothing; otherwise the line is set up (in the existing array, every other line unchanged, or in a fresh array whose other lines are zeroed), and success adds it to the probed lines, while a later failure returns that error and undoes the line count, deleting the driver with the last line |
| `GoldfishTty.TtyDriver.Remove` | drivers/char/goldfish_tty.c:290-303 | the line leaves the probed set with its base cleared, every other line and the rest of this one unchanged, and the driver exists exactly while some line is still probed |

## Left out

- Spinlocks, the mutex, wait queues and `wake_up` are not modelled, because every operation is modelled as running alone. Interrupts are delivered only at the points where a call sleeps.
- Signals are not modelled. The audio read and write loops ignore the result of `wait_event_interruptible`, so a signal would let a loop go on with no buffer ready. In the model, a sleep ends only when its condition holds.
- The framebuffer pan's `HZ / 15` timeout is not modelled as time. It becomes the end of the supplied interrupt sequence.
- `copy_from_user` and `copy_to_user` are not modelled as memory. The `faultAt` chunk number says which copy fails, and no data bytes are modelled.
- Platform glue is not modelled, because it calls kernel APIs whose code is not part of this model:
  - DMA allocation and freeing, `kzalloc`, `request_irq` and `free_irq`, `misc_register`, platform resource lookup and `IO_ADDRESS`;
  - the framebuffer core (`fb_set_var`, `register_framebuffer`, the `cfb_*` drawing helpers);
  - the TTY core (`tty_register_driver`, `tty_register_device`, `tty_schedule_flip`, termios);
  - `register_console` and `unregister_console`.
- The TTY flip buffer is not modelled. The `granted` parameter is the count `tty_prepare_flip_string` returns, and the buffer address is a parameter.
- `goldfish_tty_chars_in_buffer`, `goldfish_tty_console_write` and `goldfish_tty_console_device` are not modelled. They only read a register or forward to `DoWrite` and the TTY core.
- The framebuffer's CONFIG_ANDROID_POWER blank hooks, `printk`, and module init and exit are not modelled.
- `GoldfishAudio.AudioDevice.Probe` and `GoldfishFb.FbDevice.Probe` model the successful end of probe only. Their failure paths only unwind platform glue.
- `GoldfishAudio.AudioDevice.Release` requires the device to be attached. A release after remove (a file left open across an unbind) makes audio.c:214 store through the NULL `audio_data`, and the model does not describe that dereference.
- The statement at drivers/char/goldfish_tty.c:277 (`tty_unregister_device` with an uninitialised index) is unreachable and is not modelled.
- `GoldfishFb.ConvertBitfield`: the general claim that the result stays inside `[offset, offset + length)` is proved only for the four channel layouts the probe declares (`ConvertStaysInField`), not for every layout. The C `int val` is taken as its 32-bit unsigned pattern; the palette values the framebuffer core passes are 16-bit.
- `GoldfishFb.FbDevice.SetColReg` requires every channel layout to have a length of at most 16 and an offset below 32. That is where C's shifts in `convert_bitfield` are defined; the probe's layout meets it.
- `GoldfishFb.FbDevice.SetVar` stands for the framebuffer core applying a screen. Only the driver's `check_var` and `set_par` are modelled from source.
- `GoldfishAudio.AudioDevice.Write` and `GoldfishAudio.AudioDevice.Read` require `count <= SSIZE_MAX`, which the VFS guarantees. C `int` overflow is not modelled for the read `result`, for `opencount`, or for `base_update_count`; the model's integers do not wrap there.
- `GoldfishAudio.ReadReturnsCount` is stated only for a device that never reports more bytes than were requested. For a larger report, `count -= length` wraps and the read goes on (`SizeSub`).
- `GoldfishTty.TtyDriver.Remove` requires a probed line, and `GoldfishTty.TtyDriver.Probe` requires a line not already probed. The platform bus guarantees both.

## Findings

| source | as written | input that shows it | evidently intended | confidence | as-written member | corrected member |
|---|---|---|---|---|---|---|
| drivers/char/goldfish_tty.c:155 | `(unsigned)co->index > goldfish_tty_line_count` rejects only indexes above 8 | console index 8 passes the test and line 157 reads `goldfish_ttys[8]`, one past the eight-entry array allocated at line 175. The over-read is latent in this driver: each console's index is its `pdev->id` (line 269), and line 236 admits only ids 0 to 7 | `>=`: only indexes 0 to 7 name a line | not executed | `GoldfishTty.ConsoleSetupReadsPastEnd` | `GoldfishTty.ConsoleSetup` |
| drivers/video/goldfishfbs2.c:316 | remove frees `xres_virtual * yres_virtual * 2` bytes of the current screen | probe a 320x480 display, which allocates 614400 bytes; a screen with `yres_virtual` 480 passes `check_var`, and remove then frees 307200 bytes | free the `framesize` (`smem_len`) the probe allocated | not executed | `GoldfishFb.RemoveFreesWrongSize` | `GoldfishFb.FbDevice.Remove` |
