# JEMU core: processor bus, VZ-200/VZ-300 bridge and machine helpers

JEMU is a Java emulation platform. This project models its machine-independent parts and the Dick Smith VZ-200/VZ-300 machine in Dafny, and proves their properties.

**Processor** (Processor.java):
- Cycle counting, with or without a per-T-state cycle device.
- 16-bit little-endian word access that wraps at 0xFFFF.
- The open-collector input bus: `0xff` ANDed with every input mapping.
- Output broadcast to every output mapping.
- The interrupt-pending mask.
- The cooperative `run`/`runTo` loops.

**Memory** (VZMemory.java, Memory.java): the flat 64 KB memory of the VZ, with the banked accessors that `Memory` supplies by default.

**VZ machine** (VZ.java):
- The per-T-state `cycle()`: frame counter, flyback flag and interrupt, audio resync every 50 frames, and the fixed-point sound accumulator.
- The memory-map decode: ROM, keyboard/latch, video RAM and RAM.
- The sound-latch rule.
- The `.VZ` file loader.

**Computer base class** (Computer.java):
- Descriptor-table lookup and byte-buffer word decoding.
- Real-time pacing against a wall clock (`syncProcessor`).
- The `emulate` dispatch and one hand-off of the worker loop.
- The `Files.txt` catalogue parse and the `getFileInfo` lookup.

Modules, in dependency order:

| module | file | models |
|---|---|---|
| `JavaInt` | JavaInt.dfy | Java `byte`, `(byte)`, `& 0xff`, 32-bit wrap, truncating `/`, single-bit tests |
| `Memory` | Memory.dfy | `VZMemory` and the `Memory` banked defaults |
| `Cpu` | Processor.dfy | `Processor` |
| `Outcomes` | Outcomes.dfy | `Option`/`Result` for `null` returns and exceptions |
| `JavaString` | JavaString.dfy | `indexOf`, `trim`, `replace`, `equalsIgnoreCase` |
| `Catalogue` | Catalogue.dfy | `FileDescriptor` and the catalogue line format |
| `Machine` | Computer.dfy | `Computer` |
| `VzTiming` | VzTiming.dfy | the pure arithmetic of `VZ.cycle()` and of the latch |
| `VzFile` | VzFile.dfy | the `.VZ` file layout |
| `Vz` | Vz.dfy | the `VZ` class |

State-changing code is modelled as classes with `modifies` frames:
- `Processor`, `VZMemory` (over a 65536-element `array`), `Computer` and `VZ`.
- Each method states the new state in terms of a pure function of the old state.
- The lemmas about those functions carry the properties.

Collaborators the model does not contain are abstracted:
- The abstract `step()`/`stepOver()` take a `StepOutcome`: the next program counter, the T-states used, and whether `stop()` was requested during the step.
- The wall clock is the injected function `clock`; reading `k` returns `clock(k)`.
- Keyboard answers are parameters.
- Calls to the sound player and renderer are recorded in ghost logs.
- `player.getClockAdder` is the `audioAdd` parameter.

## Model

| member | source | states |
|---|---|---|
| JavaInt.ToByte | jemu-src/jemu/system/vz/VZMemory.java:30 | `(byte) v` is the byte congruent to `v` modulo 256 |
| JavaInt.Unsigned | jemu-src/jemu/system/vz/VZMemory.java:26 | `b & 0xff` is in [0, 255] and congruent to `b` modulo 256 |
| JavaInt.UnsignedToByte | jemu-src/jemu/system/vz/VZMemory.java:25-32 | storing `(byte) v` and reading it back unsigned gives `v & 0xff` |
| JavaInt.ToByteUnsigned | jemu-src/jemu/system/vz/VZ.java:176-178 | a byte read unsigned and narrowed again is unchanged |
| JavaInt.Wrap32 | jemu-src/jemu/system/vz/VZ.java:116 | `int` addition wraps modulo 2^32 and leaves in-range values alone |
| JavaInt.TDiv | jemu-src/jemu/core/device/Computer.java:410-411 | Java `/` rounds toward zero: the remainder has the dividend's sign and is smaller than the divisor |
| Memory.Store | jemu-src/jemu/system/vz/VZMemory.java:30 | one store changes exactly one cell |
| Memory.Overlay | jemu-src/jemu/system/vz/VZMemory.java:35 | `arraycopy` puts `data` at the cells from `address` on and keeps every other cell |
| Memory.VZMemory.constructor | jemu-src/jemu/system/vz/VZMemory.java:18-23 | 65536 cells, all zero |
| Memory.VZMemory.ReadByte | jemu-src/jemu/system/vz/VZMemory.java:25-27 | the result is in [0, 255] and narrows back to the stored byte |
| Memory.VZMemory.WriteByte | jemu-src/jemu/system/vz/VZMemory.java:29-32 | only cell `a` changes, to `(byte) v`; returns `v & 0xff`; a following read gives `v & 0xff` |
| Memory.VZMemory.SetMemory | jemu-src/jemu/system/vz/VZMemory.java:34-36 | requires the range to fit; afterwards memory is the old memory with `data` overlaid at `address` |
| Memory.VZMemory.ReadByteBanked | jemu-src/jemu/core/device/memory/Memory.java:20-22 | equals the plain read for every configuration token |
| Memory.VZMemory.WriteByteBanked | jemu-src/jemu/core/device/memory/Memory.java:24-26 | has exactly the effect of the plain write, whatever the token |
| Cpu.Counting | jemu-src/jemu/core/cpu/Processor.java:54-57 | the i-th value is `from + i` |
| Cpu.CountingAppend | jemu-src/jemu/core/cpu/Processor.java:54-57 | the callbacks of two consecutive `cycle` calls are those of one call over the summed count |
| Cpu.Processor.constructor | jemu-src/jemu/core/cpu/Processor.java:20-48 | no devices, nothing pending, counter 0, not stopped, the given clock rate |
| Cpu.Processor.Cycle | jemu-src/jemu/core/cpu/Processor.java:50-58 | without a cycle device the counter moves by `count` and nothing is called back. With one, `max(count, 0)` callbacks are made; each sees the counter one above the previous; the counter ends at old + that number |
| Cpu.Processor.Reset | jemu-src/jemu/core/cpu/Processor.java:60-62 | the counter is 0 and nothing else changes |
| Cpu.Processor.Step | jemu-src/jemu/core/cpu/Processor.java:68 | one instruction: its PC, its cost through `cycle`, its stop request |
| Cpu.Processor.StepOver | jemu-src/jemu/core/cpu/Processor.java:70 | the same for `stepOver` |
| Cpu.Processor.Stop | jemu-src/jemu/core/cpu/Processor.java:86-88 | sets `stopped` |
| Cpu.RunLength | jemu-src/jemu/core/cpu/Processor.java:72-84 | at least one step runs; the last one executed ends the run and no earlier one does |
| Cpu.RunLengthUnique | jemu-src/jemu/core/cpu/Processor.java:72-84 | any step count with that property is the run length |
| Cpu.Processor.Run | jemu-src/jemu/core/cpu/Processor.java:72-77 | `RunLength` steps execute, the processor ends stopped, and the counter, callbacks and retired steps are those of that prefix of the script |
| Cpu.Processor.RunTo | jemu-src/jemu/core/cpu/Processor.java:79-84 | as `Run`, but the run also ends when the PC reaches the target: afterwards it is stopped or at the target |
| Cpu.Processor.ReadWord | jemu-src/jemu/core/cpu/Processor.java:90-92 | in [0, 65535]; low byte from `addr`, high byte from `(addr + 1) & 0xffff` |
| Cpu.Processor.WriteWord | jemu-src/jemu/core/cpu/Processor.java:94-97 | stores the low byte at `addr` and `value >> 8` at `(addr + 1) & 0xffff`, so 0xFFFF wraps to 0; `readWord(addr)` then gives `value & 0xffff` |
| Cpu.WordSplit | jemu-src/jemu/core/cpu/Processor.java:91-96 | the two stored bytes make up `value & 0xffff` |
| Cpu.AndAllBits | jemu-src/jemu/core/cpu/Processor.java:107-112 | a bit of the result is set iff it is one of the low 8 and every mapping drives it high |
| Cpu.Processor.In | jemu-src/jemu/core/cpu/Processor.java:107-112 | the result is the AND of `0xff` with every input mapping's reading; it is at most 0xff, and exactly 0xff with no mappings |
| Cpu.Broadcast | jemu-src/jemu/core/cpu/Processor.java:115-116 | one `writePort(port, value)` per mapping, in array order, unfiltered |
| Cpu.Processor.Out | jemu-src/jemu/core/cpu/Processor.java:114-117 | `out` appends exactly those calls to the port log |
| Cpu.Processor.AddInputDeviceMapping | jemu-src/jemu/core/cpu/Processor.java:127-130 | appends at the end and keeps the order |
| Cpu.Processor.AddOutputDeviceMapping | jemu-src/jemu/core/cpu/Processor.java:136-139 | appends at the end and keeps the order |
| Cpu.Processor.SetCycleDevice | jemu-src/jemu/core/cpu/Processor.java:145-147 | installs or removes the cycle device |
| Cpu.Processor.SetInterruptDevice | jemu-src/jemu/core/cpu/Processor.java:149-151 | installs or removes the interrupt device |
| Cpu.RaiseMask | jemu-src/jemu/core/cpu/Processor.java:153-155 | the mask bits are set and every other bit is kept |
| Cpu.ClearMask | jemu-src/jemu/core/cpu/Processor.java:157-159 | the mask bits are clear and every other bit is kept |
| Cpu.Processor.SetInterrupt | jemu-src/jemu/core/cpu/Processor.java:153-155 | the pending mask becomes `RaiseMask(pending, mask)` |
| Cpu.Processor.ClearInterrupt | jemu-src/jemu/core/cpu/Processor.java:157-159 | the pending mask becomes `ClearMask(pending, mask)` |
| Cpu.Processor.SetCyclesPerSecond | jemu-src/jemu/core/cpu/Processor.java:182-184 | sets the clock rate |
| Cpu.Processor.SetPC | jemu-src/jemu/system/vz/VZ.java:192 | sets the program counter |
| JavaString.IndexOf | jemu-src/jemu/core/device/Computer.java:366-369 | the first position from `from` on holding `c`, or -1 when there is none |
| JavaString.TrimStart | jemu-src/jemu/core/device/Computer.java:368 | a suffix; only spaces were dropped; it does not start with a space |
| JavaString.TrimEnd | jemu-src/jemu/core/device/Computer.java:368 | a prefix; only spaces were dropped; it does not end with a space |
| JavaString.Trim | jemu-src/jemu/core/device/Computer.java:368-374 | the result is a slice of the input with only characters up to U+0020 removed, and only before and after it; no such character at either end of the result; empty iff the input was all such characters; a trimmed input is unchanged |
| JavaString.Replace | jemu-src/jemu/core/device/Computer.java:374 | each `from` becomes `to` and all else is kept, so no `from` is left |
| JavaString.ReplaceBack | jemu-src/jemu/core/device/Computer.java:374 | replacing back undoes the replacement when the new character was absent |
| JavaString.LowerCase | jemu-src/jemu/core/device/Computer.java:74 | each character lower-cased |
| JavaString.CharEqualsIgnoreCaseLower | jemu-src/jemu/core/device/Computer.java:74 | characters match ignoring case iff their lower-case forms are equal |
| JavaString.EqualsIgnoreCaseIff | jemu-src/jemu/core/device/Computer.java:74 | `equalsIgnoreCase` holds iff the lower-cased strings are equal |
| Catalogue.ParseLine | jemu-src/jemu/core/device/Computer.java:366-375 | nothing exactly when the line has no `=`; trimmed description and file name; no bar character left in the instructions |
| Catalogue.ParseLineNoComma | jemu-src/jemu/core/device/Computer.java:366-375 | for `a=b` with no `=` in `a` and no comma in `b`: description `trim(a)`, file name `trim(b)`, instructions empty |
| Catalogue.ParseLineWithComma | jemu-src/jemu/core/device/Computer.java:366-375 | for `a=b,c` with no `=` in `a` and no comma in `b`: description `trim(a)`, file name `trim(b)`, instructions `trim(c)` with every bar turned into a newline |
| Catalogue.CatalogueOf | jemu-src/jemu/core/device/Computer.java:365-377 | at most one descriptor per line |
| Catalogue.ParseCatalogue | jemu-src/jemu/core/device/Computer.java:365-377 | the loop collects `CatalogueOf(lines)` |
| Catalogue.FindFileInfo | jemu-src/jemu/core/device/Computer.java:395-401 | the instructions of the first entry whose file name matches ignoring case; none iff no entry matches |
| Catalogue.ParseFormatLine | jemu-src/jemu/core/device/Computer.java:366-375 | a line written as `desc=name,instructions` parses back to the same descriptor |
| Catalogue.FormatCatalogue | jemu-src/jemu/core/device/Computer.java:365-377 | one line per descriptor |
| Catalogue.ParseFormatCatalogue | jemu-src/jemu/core/device/Computer.java:365-377 | a catalogue written line by line is read back entry for entry, in order |
| Machine.FindComputer | jemu-src/jemu/core/device/Computer.java:72-81 | the first entry whose key equals the name ignoring case; otherwise the failure "Computer <name> not found", exactly when no key matches |
| Machine.GetWord | jemu-src/jemu/core/device/Computer.java:117-119 | in [0, 65535]; low byte `buffer[offs]`, high byte `buffer[offs + 1]`, both unsigned |
| Machine.GetWordBE | jemu-src/jemu/core/device/Computer.java:121-123 | in [0, 65535]; the little-endian decoding of the two bytes swapped |
| Machine.GetWordOfWordBytes | jemu-src/jemu/core/device/Computer.java:117-119 | decoding the two bytes of a 16-bit value gives the value back |
| Machine.FrameMillisRounds | jemu-src/jemu/core/device/Computer.java:410-411 | for a non-negative cycle count, the increment is the elapsed milliseconds rounded half up |
| Machine.WaitUntil | jemu-src/jemu/core/device/Computer.java:429 | the busy wait ends after at least one reading |
| Machine.WaitUntilReached | jemu-src/jemu/core/device/Computer.java:429 | the wait ends at the first reading that has reached the deadline |
| Machine.SyncOutcomes | jemu-src/jemu/core/device/Computer.java:409-435 | see "syncProcessor" below |
| Machine.SyncFrameSkipBound | jemu-src/jemu/core/device/Computer.java:415-424 | `frameSkip` stays in [0, 20] if it starts there |
| Machine.RunSteps | jemu-src/jemu/core/device/Computer.java:284-288 | the run length of `run()` when `runTo` is -1, of `runTo(runTo)` otherwise |
| Machine.Computer.constructor | jemu-src/jemu/core/device/Computer.java:52-67 | action and mode STOP, not running, frame skip 0, `runTo` -1, no catalogue yet |
| Machine.Computer.SyncProcessor | jemu-src/jemu/core/device/Computer.java:409-435 | the new pacing state is `Sync` of the old one, the processor's counter and rate, and the clock |
| Machine.Computer.WaitFor | jemu-src/jemu/core/device/Computer.java:429 | the loop takes exactly `WaitUntil` readings |
| Machine.Computer.SetFrameSkip | jemu-src/jemu/core/device/Computer.java:437-439 | sets the frame skip |
| Machine.Computer.SetRunToAddress | jemu-src/jemu/core/device/Computer.java:449-451 | sets the run target |
| Machine.Computer.ClearRunToAddress | jemu-src/jemu/core/device/Computer.java:453-455 | restores "no target" (-1) |
| Machine.Computer.Emulate | jemu-src/jemu/core/device/Computer.java:274-291 | see "emulate" below |
| Machine.Computer.ServeAction | jemu-src/jemu/core/device/Computer.java:334-349 | the pending action becomes the mode and the action is reset to STOP; the cycle and time baselines are taken; `emulate(mode)` runs; the worker ends not running, with one completion event |
| Machine.Computer.GetFiles | jemu-src/jemu/core/device/Computer.java:357-390 | parses the catalogue on the first call only and afterwards returns the cached descriptors |
| Machine.Computer.GetFileInfo | jemu-src/jemu/core/device/Computer.java:392-403 | the first matching entry's instructions, ignoring case, or none iff nothing matches |
| VzTiming.TimingFor | jemu-src/jemu/system/vz/VZ.java:60-77 | VZ-200: 3579500 Hz, 71136 cycles per frame, flyback at 58140. VZ-300: 3546900 Hz, 70680 and 57912. Flyback lies inside the frame |
| VzTiming.TickPreserves | jemu-src/jemu/system/vz/VZ.java:101-111 | one `cycle()` keeps the beam in [0, cyclesPerFrame), the resync countdown in [1, 50] and `frameFlyback` equal to 0x80 before flyback and 0 after it |
| VzTiming.TickNPreserves | jemu-src/jemu/system/vz/VZ.java:101-111 | the same over any number of cycles |
| VzTiming.TickNAdd | jemu-src/jemu/system/vz/VZ.java:101-111 | a + b cycles are a cycles followed by b |
| VzTiming.QuietRun | jemu-src/jemu/system/vz/VZ.java:101-111 | between the two events only the beam moves |
| VzTiming.ToFlyback | jemu-src/jemu/system/vz/VZ.java:101-108 | from cycle 0 to the flyback point: the flag clears, one interrupt is raised, one step of the resync countdown |
| VzTiming.FlybackToEnd | jemu-src/jemu/system/vz/VZ.java:109-111 | from flyback to the end of the frame: the beam wraps to 0 and the flag is set |
| VzTiming.OneFrame | jemu-src/jemu/system/vz/VZ.java:101-111 | a whole frame gives one interrupt, one frame and one step of the resync countdown |
| VzTiming.CountdownStep | jemu-src/jemu/system/vz/VZ.java:102-105 | the closed form of the countdown advances by one frame |
| VzTiming.Frames | jemu-src/jemu/system/vz/VZ.java:101-111 | after k frames: k interrupts, syncCnt = (s - 1 - k) mod 50 + 1, and (k + 50 - s) / 50 resyncs |
| VzTiming.FiftyFrames | jemu-src/jemu/system/vz/VZ.java:102-105 | every 50 frames give exactly one resync and leave the countdown where it was |
| VzTiming.SoundTickBounded | jemu-src/jemu/system/vz/VZ.java:116-121 | for 0 <= audioAdd < 0x40000000 the accumulator stays in [0, 0x40000000); a sample is written iff the sum reaches it, and the sum is conserved |
| VzTiming.SoundRunCount | jemu-src/jemu/system/vz/VZ.java:116-121 | over n cycles exactly floor((soundUpdate + n·audioAdd) / 2^30) samples are written |
| VzTiming.SoundIndex | jemu-src/jemu/system/vz/VZ.java:142 | the level index, latch bit 0 plus twice latch bit 5, is always in [0, 3] |
| VzTiming.SoundIndexFollowsLatch | jemu-src/jemu/system/vz/VZ.java:141-142 | `(latch ^ value) & 0x21 != 0` holds iff the new value selects a different level index |
| VzFile.FileType | jemu-src/jemu/system/vz/VZ.java:170 | the type byte, unsigned |
| VzFile.StartAddress | jemu-src/jemu/system/vz/VZ.java:171 | in [0, 65535]; the little-endian word at header offset 22 |
| VzFile.EndAddress | jemu-src/jemu/system/vz/VZ.java:172-181 | in [0, 65535] |
| VzFile.WrapStep | jemu-src/jemu/system/vz/VZ.java:179 | `(address + 1) & 0xffff` of a wrapped offset is the next offset wrapped |
| VzFile.PokeAllLands | jemu-src/jemu/system/vz/VZ.java:172-181 | payload byte i, among the last 65536, is at `(start + i) & 0xffff` |
| VzFile.DistinctWrapped | jemu-src/jemu/system/vz/VZ.java:179 | offsets fewer than 65536 apart land on different cells |
| VzFile.PokeAllUntouched | jemu-src/jemu/system/vz/VZ.java:172-181 | a cell the payload does not reach keeps its byte |
| VzFile.OffsetOfWrapped | jemu-src/jemu/system/vz/VZ.java:179 | the cell reached after n bytes lies n past the start |
| VzFile.LoadedPayload | jemu-src/jemu/system/vz/VZ.java:172-192 | after a load, apart from a BASIC program's four pointer cells, every payload byte is at its wrapped address and all other cells are kept |
| VzFile.LoadedBasicPointers | jemu-src/jemu/system/vz/VZ.java:184-189 | for type 0xF0 the word at 0x78A4 is the load address and the word at 0x78F9 is the end address |
| Vz.VZ.constructor | jemu-src/jemu/system/vz/VZ.java:40-84 | VZ-200 iff the name is "VZ200" ignoring case; timing from `TimingFor`; the processor gets the clock rate, the cycle device and the interrupt device; counter 0, countdown 50, flag 0x80, latch 0, level 127 |
| Vz.VZ.Cycle | jemu-src/jemu/system/vz/VZ.java:100-124 | see "VZ.cycle" below |
| Vz.VZ.AdvanceBeam | jemu-src/jemu/system/vz/VZ.java:101-115 | the frame fields follow `Tick`; interrupt bit 1 is raised exactly at flyback; at the end of the frame the screen is rendered when no frames are skipped, then `syncProcessor` runs; pacing is untouched otherwise |
| Vz.VZ.AdvanceSound | jemu-src/jemu/system/vz/VZ.java:116-121 | the accumulator follows `SoundTick`, and exactly one sample is written at the current level when bit 30 is set |
| Vz.VZ.SetInterrupt | jemu-src/jemu/system/vz/VZ.java:126-128 | acknowledging clears interrupt bit 1, whatever the mask |
| Vz.VZ.ReadByte | jemu-src/jemu/system/vz/VZ.java:130-133 | memory outside 0x6800-0x6FFF. Inside it, bits 0-6 come from the keyboard and bit 7 is set iff the beam is before flyback |
| Vz.VZ.WriteByte | jemu-src/jemu/system/vz/VZ.java:135-147 | see "VZ.writeByte" below |
| Vz.VZ.LoadFile | jemu-src/jemu/system/vz/VZ.java:162-196 | fewer than 24 bytes: fails with "Bad VZ File format" before any write. Otherwise memory becomes `Loaded(old memory, image)` and the PC is the load address for type 0xF1, unchanged otherwise |
| Vz.VZ.StorePayload | jemu-src/jemu/system/vz/VZ.java:174-181 | the read loop leaves memory as `PokeAll` and the address at `(start + n) & 0xffff` |
| Vz.VZ.PatchBasicPointers | jemu-src/jemu/system/vz/VZ.java:184-189 | the four pointer stores, in source order |

**syncProcessor** (`Machine.SyncOutcomes`). `startCycles` becomes the current count, and `now` is the first clock reading. Then:
- If `now` is past the deadline and the frame skip is below 20, the frame skip grows by one and the deadline stays.
- If `now` is past the deadline and the frame skip is at 20, the frame skip becomes 0 and the deadline becomes `now + 1`.
- Otherwise the frame skip becomes 0 and the call returns at the first reading that has reached the deadline.

**emulate** (`Machine.Computer.Emulate`):
- STEP retires one step and STEP_OVER one step-over.
- RUN runs `RunSteps` instructions: `run()` when `runTo` is -1, otherwise `runTo(runTo)`.
- Any other mode leaves the processor unchanged.

**VZ.cycle** (`Vz.VZ.Cycle`) is the beam step followed by the sound step:
- The frame fields follow `Tick`, and interrupt bit 1 is raised exactly when flyback starts.
- At the end of a frame, the screen is rendered iff the frame skip was 0, then the pacing state becomes `Sync`.
- The sound accumulator follows `SoundTick`, with one sample at the current level when it fires.
- `renderer.cycle()` runs iff the frame skip, read after pacing, is 0.
- `Valid` is preserved.

**VZ.writeByte** (`Vz.VZ.WriteByte`):
- `value & 0xff` is always returned.
- At 0x7000 and above, only cell `a` changes.
- Below 0x7000, memory is unchanged, which protects ROM.
- 0x7000-0x77FF also goes to the renderer.
- 0x6800-0x6FFF sets the latch. The sound level changes to `SOUND_LEVELS[SoundIndex(value)]` only when bit 0 or bit 5 toggles.
- `VZ.Valid` keeps the invariant that the sound level is always the one the latch selects.

## Left out

Not modelled:
- Threading in `Computer`: `setAction`, the `start`/`stop`/`step` wrappers that call it, the worker loop's wait/notify, `dispose`, `reset` and the `Thread` plumbing. Only one sequential hand-off of an action is modelled (`ServeAction`).
- I/O: `openFile`, `readStream`, `getFile`, reading `Files.txt`, `initialise` (ROM and font loading), listeners and `fireActionEvent`. Completions are counted only.
- Catalogue I/O: the catalogue arrives as its lines. A read failure in `getFiles` leaves the descriptors parsed so far cached; that path is not modelled.
- Reflection in `createComputer`: only the table lookup is modelled. ComputerDescriptor.java is not part of this model. The comment above the table lists the entries as "Name, Key, Class, Shown", but the first argument is taken to be the `key` compared by `createComputer`: the default computer is named by the key `"SPECTRUM48"` (Computer.java:42), and the VZ constructor compares its name with `"VZ200"` (VZ.java:62), which is the first argument of the VZ entries.
- Contents of the collaborators: the Z80 instruction decoder, renderer, keyboard and sound player. `player.play`/`stop` in `VZ.emulate`, `processKeyEvent`, `displayLostFocus`, `setDisplay`, `getDisplaySize` and the disassembler are out.
- `removeInputDeviceMapping` and `removeOutputDeviceMapping`: they depend on `Util.arrayDeleteElement`, which is not part of this model.
- `getState`, the register introspection, `getCycles`, `getCyclesPerSecond` and `getMode`: plain accessors with no behaviour to state.

Abstractions the model makes:
- Cpu.Processor.Run: `run()` and `runTo()` loop forever when no step ever stops. The model requires a script containing a step that ends the run; the same holds for Cpu.Processor.RunTo.
- Memory routing: in the VZ, the processor's memory device is the VZ itself, so the Z80's memory accesses pass through `VZ.readByte`/`writeByte`. In the model the processor reads and writes the flat `VZMemory` directly, and the VZ decode is modelled by `Vz.VZ.ReadByte`/`WriteByte` on their own.
- Cpu.Processor.Cycle: the cycle-device callback is recorded as the counter value it observes. The VZ's `cycle()` is modelled by `Vz.VZ.Cycle`, not called from inside `Processor.Cycle`.
- Counter width: the processor's `cycles` and `cyclesPerSecond` are Java `long`. The model does not capture 64-bit overflow.
- Machine.Computer.SyncProcessor: the wall clock is assumed to advance at least one millisecond between readings, which makes the busy wait end. The `long` arithmetic of the deadline is unbounded here. The exception handler around the busy wait is not modelled.
- Machine.Computer.ServeAction: the `syncProcessor` calls that JEMU makes from inside `emulate`, at every VZ frame end during a run, are not reflected. Those calls read the clock again and reassign `startTime`, `startCycles` and `frameSkip`. The stated `startTime`, `startCycles` and `clockReads` after the call are therefore the ones taken at the hand-off, which JEMU keeps only for a run that ends within its first frame.
- Machine.FrameMillisRounds: the half-up rounding is proved only for a non-negative cycle difference. After `reset()` the difference can be negative; Java's truncating division is modelled (`TDiv`), but no rounding property is stated for that case.
- JavaString.EqualsIgnoreCase: case folding covers ASCII letters only, not the full Unicode tables of `Character.toUpperCase`/`toLowerCase`.
- Vz.VZ.LoadFile: `in.read(header)` is assumed to fill the header whenever 24 bytes are available; a short read of a longer stream is not modelled. Closing the stream is out.
- Vz.VZ.WriteByte: `renderer.setData`'s return value is not available; the model returns the byte that was passed.
- VzFile.PokeAllLands: for payloads longer than 65536 bytes the statement covers the last 65536 bytes, which are the ones that survive.
