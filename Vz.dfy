/** `jemu.system.vz.VZ`: the Dick Smith VZ-200/VZ-300 bridge between the
    Z80 and its peripherals. It is the processor's cycle device (one
    `Cycle()` per T-state), its interrupt device and its memory map: ROM
    below 0x6800, the keyboard and output latch at 0x6800-0x6FFF, video RAM
    at 0x7000-0x77FF and RAM above.

    The keyboard, the sound player and the renderer are not modelled: the
    keyboard's answer is a parameter of `ReadByte`, and what the player and
    renderer are asked to do is recorded in ghost logs. */
module Vz {
  import opened JavaInt
  import opened JavaString
  import opened Outcomes
  import opened Memory
  import opened Cpu
  import opened Machine
  import opened VzTiming
  import opened VzFile

  class VZ {
    /** The `Computer` part: pacing state and the injected clock. */
    const machine: Computer
    const z80: Processor
    const memory: VZMemory
    const vz200: bool
    const timing: FrameTiming
    /** `player.getClockAdder(AUDIO_TEST, cyclesPerSecond)`, supplied by the
        sound player. */
    const audioAdd: int

    var cycles: int
    var frameFlyback: int
    var syncCnt: int
    var soundUpdate: int
    var vdcLatch: int
    var soundByte: JByte

    /** `player.sync()` calls, `z80.setInterrupt(1)` calls and completed
        frames. */
    ghost var resyncs: nat
    ghost var interrupts: nat
    ghost var frames: nat
    /** Bytes passed to `player.writeMono`. */
    ghost var samples: seq<JByte>
    /** `renderer.renderScreen` and `renderer.cycle` calls. */
    ghost var screenRenders: nat
    ghost var rendererCycles: nat
    /** Values passed to `renderer.setData` and `renderer.setVDCLatch`. */
    ghost var videoWrites: seq<int>
    ghost var latchWrites: seq<int>

    ghost predicate Valid()
      reads this, machine, z80
    {
      && machine.processor == z80 && z80.memory == memory && memory.Valid() && machine.Valid()
      && z80.hasCycleDevice && z80.hasInterruptDevice
      && timing == TimingFor(vz200) && z80.cyclesPerSecond == timing.cyclesPerSecond
      && InFrame(Counters(), timing)
      && soundByte == SOUND_LEVELS[SoundIndex(vdcLatch)]
      && (0 <= audioAdd < AUDIO_TEST ==> 0 <= soundUpdate < AUDIO_TEST)
    }

    /** The frame fields with the event counts, as `VzTiming` states them. */
    ghost function Counters(): FrameCounters
      reads this
    {
      FrameCounters(cycles, syncCnt, frameFlyback, resyncs, interrupts, frames)
    }

    /** `VZ(applet, name)`: a VZ-200 when the name is "VZ200" ignoring case,
        a VZ-300 otherwise. */
    constructor (name: string, audioAdd: int, clock: nat -> int)
      requires StrictlyIncreasing(clock)
      ensures Valid() && fresh(machine) && fresh(z80) && fresh(memory) && fresh(memory.mem)
      ensures vz200 == EqualsIgnoreCase("VZ200", name) && timing == TimingFor(vz200)
      ensures this.audioAdd == audioAdd && machine.clock == clock
      ensures Counters() == FrameCounters(0, AUDIO_RESYNC_FRAMES, 0x80, 0, 0, 0)
      ensures vdcLatch == 0 && soundByte == 127 && soundUpdate == 0
      ensures samples == [] && screenRenders == 0 && rendererCycles == 0
      ensures videoWrites == [] && latchWrites == []
    {
      var isVz200 := EqualsIgnoreCase("VZ200", name);
      vz200 := isVz200;
      timing := TimingFor(isVz200);
      this.audioAdd := audioAdd;
      var mem := new VZMemory();
      memory := mem;
      var cpu := new Processor(CYCLES_PER_SEC_VZ200, mem);
      z80 := cpu;
      machine := new Computer(cpu, clock);
      cycles, frameFlyback, syncCnt := 0, 0x80, AUDIO_RESYNC_FRAMES;
      soundUpdate, vdcLatch, soundByte := 0, 0x00, 127;
      resyncs, interrupts, frames := 0, 0, 0;
      samples, screenRenders, rendererCycles := [], 0, 0;
      videoWrites, latchWrites := [], [];
      new;
      cpu.SetCyclesPerSecond(timing.cyclesPerSecond);
      cpu.SetCycleDevice(true);
      cpu.SetInterruptDevice(true);
    }

    /** `cycle()`, called once per T-state. The frame fields follow `Tick`;
        flyback raises interrupt bit 1; the end of the frame renders the
        screen unless frames are being skipped and then paces the emulation
        against the clock; the sound accumulator follows `SoundTick` and
        emits the current level when it overflows into bit 30. */
    method Cycle()
      requires Valid()
      modifies this`cycles, this`frameFlyback, this`syncCnt, this`soundUpdate
      modifies this`resyncs, this`interrupts, this`frames, this`samples, this`screenRenders, this`rendererCycles
      modifies z80`interruptPending, machine`startTime, machine`startCycles, machine`frameSkip, machine`clockReads
      ensures Valid()
      ensures Counters() == Tick(old(Counters()), timing)
      ensures z80.interruptPending ==
                if FlybackStarts(old(Counters()), timing) then RaiseMask(old(z80.interruptPending), 1)
                else old(z80.interruptPending)
      ensures FrameEnds(old(Counters()), timing) ==>
                machine.PacingState() == Sync(old(machine.PacingState()), z80.cycles, z80.cyclesPerSecond, machine.clock)
      ensures !FrameEnds(old(Counters()), timing) ==> machine.PacingState() == old(machine.PacingState())
      ensures screenRenders ==
                old(screenRenders) + if FrameEnds(old(Counters()), timing) && old(machine.frameSkip) == 0 then 1 else 0
      ensures soundUpdate == SoundTick(old(soundUpdate), audioAdd).0
      ensures samples == old(samples) + if SoundTick(old(soundUpdate), audioAdd).1 then [soundByte] else []
      ensures rendererCycles == old(rendererCycles) + if machine.frameSkip == 0 then 1 else 0
    {
      AdvanceBeam();
      AdvanceSound();
      if machine.frameSkip == 0 {
        rendererCycles := rendererCycles + 1;
      }
    }

    /** The frame part of `cycle()`. */
    method AdvanceBeam()
      requires Valid()
      modifies this`cycles, this`frameFlyback, this`syncCnt, this`resyncs, this`interrupts, this`frames
      modifies this`screenRenders
      modifies z80`interruptPending, machine`startTime, machine`startCycles, machine`frameSkip, machine`clockReads
      ensures Valid()
      ensures Counters() == Tick(old(Counters()), timing)
      ensures z80.interruptPending ==
                if FlybackStarts(old(Counters()), timing) then RaiseMask(old(z80.interruptPending), 1)
                else old(z80.interruptPending)
      ensures FrameEnds(old(Counters()), timing) ==>
                machine.PacingState() == Sync(old(machine.PacingState()), z80.cycles, z80.cyclesPerSecond, machine.clock)
      ensures !FrameEnds(old(Counters()), timing) ==> machine.PacingState() == old(machine.PacingState())
      ensures screenRenders ==
                old(screenRenders) + if FrameEnds(old(Counters()), timing) && old(machine.frameSkip) == 0 then 1 else 0
    {
      TickPreserves(Counters(), timing);
      cycles := cycles + 1;
      if cycles == timing.CyclesToFlyback() {
        syncCnt := syncCnt - 1;
        if syncCnt == 0 {
          resyncs := resyncs + 1;
          syncCnt := AUDIO_RESYNC_FRAMES;
        }
        frameFlyback := 0x00;
        z80.SetInterrupt(1);
        interrupts := interrupts + 1;
      } else if cycles == timing.CyclesPerFrame() {
        cycles := 0;
        frameFlyback := 0x80;
        frames := frames + 1;
        if machine.frameSkip == 0 {
          screenRenders := screenRenders + 1;
        }
        machine.SyncProcessor();
      }
    }

    /** The sound part of `cycle()`. */
    method AdvanceSound()
      requires Valid()
      modifies this`soundUpdate, this`samples
      ensures Valid()
      ensures soundUpdate == SoundTick(old(soundUpdate), audioAdd).0
      ensures samples == old(samples) + if SoundTick(old(soundUpdate), audioAdd).1 then [soundByte] else []
    {
      if 0 <= audioAdd < AUDIO_TEST {
        SoundTickBounded(soundUpdate, audioAdd);
      }
      soundUpdate := Wrap32(soundUpdate + audioAdd);
      if HasBit(soundUpdate, AUDIO_TEST) {
        soundUpdate := soundUpdate - AUDIO_TEST;
        samples := samples + [soundByte];
      }
    }

    /** `setInterrupt(mask)`: the Z80 acknowledging an interrupt clears bit 1
        whatever the mask. */
    method SetInterrupt(mask: int)
      requires Valid()
      modifies z80`interruptPending
      ensures Valid()
      ensures z80.interruptPending == ClearMask(old(z80.interruptPending), 1)
    {
      z80.ClearInterrupt(1);
    }

    /** `readByte(address)`. `keyboard` is what the keyboard matrix answers
        for `address`; in the latch region bit 7 is the flyback flag, set
        while the beam is outside flyback, and bits 0-6 are the keyboard's. */
    function ReadByte(address: int, keyboard: int): (r: int)
      reads this, machine, z80, memory.mem
      requires Valid() && 0 <= address < MEMORY_SIZE
      ensures 0 <= r < 256
      ensures !(0x6800 <= address < 0x7000) ==> r == memory.ReadByte(address)
      ensures 0x6800 <= address < 0x7000 ==>
                r % 128 == keyboard % 128 && (HasBit(r, 128) <==> cycles < timing.CyclesToFlyback())
    {
      if address >= 0x7000 || address < 0x6800 then memory.ReadByte(address)
      // `frameFlyback | (keys & 0x7f)`: the flag is 0 or 0x80, so `|` adds.
      else frameFlyback + keyboard % 128
    }

    /** `writeByte(address, value)`: RAM at 0x7800 and above; video RAM at
        0x7000-0x77FF, also handed to the renderer; the output latch at
        0x6800-0x6FFF, which changes the sound level only when bit 0 or
        bit 5 toggles; ROM below, which ignores the write. */
    method WriteByte(address: int, value: int) returns (r: int)
      requires Valid() && 0 <= address < MEMORY_SIZE
      modifies memory.mem, this`vdcLatch, this`soundByte, this`videoWrites, this`latchWrites
      ensures Valid()
      ensures r == value % 256
      ensures address >= 0x7000 ==>
                memory.mem[..] == Store(old(memory.mem[..]), address, ToByte(value)) &&
                memory.ReadByte(address) == value % 256
      ensures address < 0x7000 ==> memory.mem[..] == old(memory.mem[..])
      ensures 0x7000 <= address < 0x7800 ==> videoWrites == old(videoWrites) + [value % 256]
      ensures !(0x7000 <= address < 0x7800) ==> videoWrites == old(videoWrites)
      ensures 0x6800 <= address < 0x7000 ==>
                && vdcLatch == value && latchWrites == old(latchWrites) + [value]
                && soundByte == if LatchToggled(old(vdcLatch), value) then SOUND_LEVELS[SoundIndex(value)] else old(soundByte)
      ensures !(0x6800 <= address < 0x7000) ==>
                vdcLatch == old(vdcLatch) && soundByte == old(soundByte) && latchWrites == old(latchWrites)
    {
      if address >= 0x7800 {
        r := memory.WriteByte(address, value);
      } else if address >= 0x7000 {
        r := memory.WriteByte(address, value);
        videoWrites := videoWrites + [r];
      } else {
        if address >= 0x6800 {
          SoundIndexFollowsLatch(vdcLatch, value);
          if LatchToggled(vdcLatch, value) {
            soundByte := SOUND_LEVELS[SoundIndex(value)];
          }
          vdcLatch := value;
          latchWrites := latchWrites + [value];
        }
        r := value % 256;
      }
    }

    /** `loadFile(name)` for a file whose bytes are `image`: fails with "Bad
        VZ File format" when the 24-byte header is incomplete, otherwise
        stores the payload from the load address (straight into memory, so
        ROM is not protected), then patches the BASIC pointers for type 0xF0
        or jumps to the load address for type 0xF1. The result is the
        exception's message, if one is thrown. */
    method LoadFile(image: seq<JByte>) returns (error: Option<string>)
      requires Valid()
      modifies memory.mem, z80`pc
      ensures Valid()
      ensures |image| < HEADER_SIZE ==>
                error == Some(BAD_FORMAT) && memory.mem[..] == old(memory.mem[..]) && z80.pc == old(z80.pc)
      ensures |image| >= HEADER_SIZE ==>
                && error == None
                && memory.mem[..] == Loaded(old(memory.mem[..]), image)
                && z80.pc == if FileType(image) == TYPE_MACHINE_CODE then StartAddress(image) else old(z80.pc)
    {
      if |image| < HEADER_SIZE {
        return Some(BAD_FORMAT);
      }
      var fileType := Unsigned(image[21]);
      var start := Unsigned(image[22]) + 256 * Unsigned(image[23]);
      var address := StorePayload(start, image[HEADER_SIZE..]);
      assert start == StartAddress(image) && address == EndAddress(image);
      ghost var stored := memory.mem[..];
      assert stored == PokeAll(old(memory.mem[..]), StartAddress(image), Payload(image));
      if fileType == TYPE_BASIC {
        PatchBasicPointers(image[22], image[23], address);
      } else if fileType == TYPE_MACHINE_CODE {
        z80.SetPC(start);
      }
      error := None;
    }

    /** The BASIC pointer writes after a type 0xF0 file: the load address
        bytes from the header, then the end address low and high. */
    method PatchBasicPointers(startLow: JByte, startHigh: JByte, address: int)
      requires Valid() && 0 <= address < MEMORY_SIZE
      modifies memory.mem
      ensures Valid()
      ensures memory.mem[..] == Store(Store(Store(Store(old(memory.mem[..]), BASIC_START, startLow),
                                                  BASIC_START + 1, startHigh),
                                            BASIC_END, ToByte(address)),
                                      BASIC_END + 1, ToByte(address / 256))
    {
      var _ := memory.WriteByte(BASIC_START, startLow);
      ToByteUnsigned(startLow);
      var _ := memory.WriteByte(BASIC_START + 1, startHigh);
      var _ := memory.WriteByte(BASIC_END, address);
      var _ := memory.WriteByte(BASIC_END + 1, address / 256);
    }

    /** The `do { read = in.read(); ... } while (read != -1)` loop: each byte
        is stored at `address`, which then advances with `& 0xffff`. Returns
        the address after the last byte. */
    method StorePayload(start: int, data: seq<JByte>) returns (address: int)
      requires Valid() && 0 <= start < MEMORY_SIZE
      modifies memory.mem
      ensures Valid()
      ensures memory.mem[..] == PokeAll(old(memory.mem[..]), start, data)
      ensures address == (start + |data|) % MEMORY_SIZE
    {
      address := start;
      var i := 0;
      while i < |data|
        invariant 0 <= i <= |data|
        invariant address == (start + i) % MEMORY_SIZE
        invariant memory.mem[..] == PokeAll(old(memory.mem[..]), start, data[..i])
      {
        // `in.read()` yields the byte unsigned; the store narrows it back.
        var read := Unsigned(data[i]);
        ToByteUnsigned(data[i]);
        var _ := memory.WriteByte(address, read);
        assert data[..i + 1][..i] == data[..i];
        WrapStep(start + i);
        address := (address + 1) % MEMORY_SIZE;
        i := i + 1;
      }
      assert data[..i] == data;
    }
  }
}
