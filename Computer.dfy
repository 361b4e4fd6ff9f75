/** The machine-independent part of `jemu.core.device.Computer`: the table
    of machines, byte-buffer word decoding, real-time pacing
    (`syncProcessor`), the dispatch of a requested action to the processor
    (`emulate`) and the cached file catalogue.

    The wall clock (`System.currentTimeMillis`) is injected: `clock(k)` is the
    time the k-th reading returns. */
module Machine {
  import opened JavaInt
  import opened JavaString
  import opened Outcomes
  import opened Cpu
  import opened Catalogue

  // Actions of the scheduler.
  const STOP: int := 0
  const STEP: int := 1
  const STEP_OVER: int := 2
  const RUN: int := 3

  const MAX_FRAME_SKIP: int := 20

  /** An entry of `COMPUTERS`: the lookup key, the display name, the
      implementing class and whether it is listed. */
  datatype ComputerDescriptor = ComputerDescriptor(key: string, name: string, className: string, shown: bool)

  const COMPUTERS: seq<ComputerDescriptor> := [
    ComputerDescriptor("BBC-B",      "Acorn BBC Model B",        "jemu.system.bbc.BBC",           true),
    ComputerDescriptor("CPC464",     "Amstrad CPC464",           "jemu.system.cpc.CPC",           true),
    ComputerDescriptor("CPC664",     "Amstrad CPC664",           "jemu.system.cpc.CPC",           false),
    ComputerDescriptor("CPC6128",    "Amstrad CPC6128",          "jemu.system.cpc.CPC",           false),
    ComputerDescriptor("VZ200",      "Dick Smith VZ-200",        "jemu.system.vz.VZ",             false),
    ComputerDescriptor("VZ300",      "Dick Smith VZ-300",        "jemu.system.vz.VZ",             true),
    ComputerDescriptor("SPECTRUM48", "Sinclair ZX Spectrum 48K", "jemu.system.spectrum.Spectrum", true),
    ComputerDescriptor("ZX80",       "Sinclair ZX80",            "jemu.system.zx.ZX",             true),
    ComputerDescriptor("ZX81",       "Sinclair ZX81",            "jemu.system.zx.ZX",             true)
  ]

  /** The table search of `createComputer`: the first entry whose key equals
      `name` ignoring case, or the "not found" failure. */
  method FindComputer(name: string) returns (r: Result<ComputerDescriptor, string>)
    ensures r.Err? <==> forall j :: 0 <= j < |COMPUTERS| ==> !EqualsIgnoreCase(COMPUTERS[j].key, name)
    ensures r.Err? ==> r.error == "Computer " + name + " not found"
    ensures r.Ok? ==> exists j :: 0 <= j < |COMPUTERS| && r.value == COMPUTERS[j] &&
                        EqualsIgnoreCase(COMPUTERS[j].key, name) &&
                        forall k :: 0 <= k < j ==> !EqualsIgnoreCase(COMPUTERS[k].key, name)
  {
    var index := 0;
    while index < |COMPUTERS|
      invariant 0 <= index <= |COMPUTERS|
      invariant forall k :: 0 <= k < index ==> !EqualsIgnoreCase(COMPUTERS[k].key, name)
    {
      if EqualsIgnoreCase(COMPUTERS[index].key, name) {
        return Ok(COMPUTERS[index]);
      }
      index := index + 1;
    }
    r := Err("Computer " + name + " not found");
  }

  /** `getWord(buffer, offs)`: the little-endian unsigned 16-bit value. */
  function GetWord(buffer: seq<JByte>, offs: int): (r: int)
    requires 0 <= offs && offs + 1 < |buffer|
    ensures 0 <= r < 65536
    ensures r % 256 == Unsigned(buffer[offs]) && r / 256 == Unsigned(buffer[offs + 1])
  {
    Unsigned(buffer[offs]) + Unsigned(buffer[offs + 1]) * 256
  }

  /** `getWordBE(buffer, offs)`: the big-endian unsigned 16-bit value. */
  function GetWordBE(buffer: seq<JByte>, offs: int): (r: int)
    requires 0 <= offs && offs + 1 < |buffer|
    ensures 0 <= r < 65536
    ensures r == GetWord([buffer[offs + 1], buffer[offs]], 0)
  {
    Unsigned(buffer[offs + 1]) + Unsigned(buffer[offs]) * 256
  }

  /** The two bytes of a 16-bit value, low first. */
  function WordBytes(w: int): seq<JByte>
  {
    [ToByte(w % 256), ToByte(w / 256)]
  }

  /** `getWord` reads back the value that was laid out little-endian. */
  lemma GetWordOfWordBytes(w: int)
    requires 0 <= w < 65536
    ensures GetWord(WordBytes(w), 0) == w
  {
    UnsignedToByte(w % 256);
    UnsignedToByte(w / 256);
  }

  /** The readings of a wall clock move forward by at least a millisecond
      between reads (what makes the busy wait of `syncProcessor` end). */
  ghost predicate StrictlyIncreasing(clock: nat -> int)
  {
    forall k: nat :: Advances(clock, k)
  }

  /** Reading `k + 1` is later than reading `k`. */
  ghost predicate Advances(clock: nat -> int, k: nat)
  {
    clock(k) < clock(k + 1)
  }

  /** Milliseconds for `elapsed` cycles at `cps` cycles per second, rounded
      half up: `((elapsed * 2000 / cps) + 1) / 2` in Java `long` arithmetic. */
  function FrameMillis(elapsed: int, cps: int): int
    requires cps > 0
  {
    TDiv(TDiv(elapsed * 2000, cps) + 1, 2)
  }

  /** For a non-negative cycle count the result is the nearest whole number
      of milliseconds, halves rounded up. */
  lemma FrameMillisRounds(elapsed: int, cps: int)
    requires cps > 0 && elapsed >= 0
    ensures var ms := FrameMillis(elapsed, cps);
            (2 * ms - 1) * cps <= elapsed * 2000 < (2 * ms + 1) * cps
  {
    var x := elapsed * 2000;
    var q := x / cps;
    assert x == cps * q + x % cps && 0 <= x % cps < cps;
    assert TDiv(x, cps) == q;
    var ms := (q + 1) / 2;
    assert TDiv(q + 1, 2) == ms;
    assert q == 2 * ms - 1 || q == 2 * ms;
    MulMonotone(2 * ms - 1, q, cps);
    MulMonotone(q + 1, 2 * ms + 1, cps);
  }

  lemma MulMonotone(a: int, b: int, c: int)
    requires a <= b && c > 0
    ensures a * c <= b * c
  {
    assert b * c - a * c == (b - a) * c;
  }

  /** The read count after the busy wait `while (clock < target);` that
      starts with reading number `k`. */
  ghost function WaitUntil(clock: nat -> int, k: nat, target: int): (r: nat)
    requires StrictlyIncreasing(clock)
    ensures r > k
    decreases target - clock(k)
  {
    if clock(k) >= target then k + 1
    else
      assert Advances(clock, k);
      WaitUntil(clock, k + 1, target)
  }

  /** The wait ends at the first reading that has reached the target. */
  lemma {:induction false} WaitUntilReached(clock: nat -> int, k: nat, target: int)
    requires StrictlyIncreasing(clock)
    ensures var r := WaitUntil(clock, k, target);
            clock(r - 1) >= target && forall i :: k <= i < r - 1 ==> clock(i) < target
    decreases target - clock(k)
  {
    if clock(k) < target {
      assert Advances(clock, k);
      WaitUntilReached(clock, k + 1, target);
    }
  }

  lemma WaitUntilUnfold(clock: nat -> int, k: nat, target: int)
    requires StrictlyIncreasing(clock)
    ensures clock(k) >= target ==> WaitUntil(clock, k, target) == k + 1
    ensures clock(k) < target ==> WaitUntil(clock, k, target) == WaitUntil(clock, k + 1, target)
  {
  }

  /** The pacing fields of `Computer` and how many clock readings were
      taken so far. */
  datatype Pacing = Pacing(startTime: int, startCycles: int, frameSkip: int, clockReads: nat)

  /** `syncProcessor()` as a function of the pacing state, the processor's
      cycle counter and clock rate, and the clock. */
  ghost function Sync(p: Pacing, cycles: int, cps: int, clock: nat -> int): Pacing
    requires cps > 0 && StrictlyIncreasing(clock)
  {
    var deadline := p.startTime + FrameMillis(cycles - p.startCycles, cps);
    var time := clock(p.clockReads);
    if time > deadline then
      if p.frameSkip == MAX_FRAME_SKIP then Pacing(time + 1, cycles, 0, p.clockReads + 1)
      else Pacing(deadline, cycles, p.frameSkip + 1, p.clockReads + 1)
    else Pacing(deadline, cycles, 0, WaitUntil(clock, p.clockReads + 1, deadline))
  }

  /** What one `syncProcessor` call promises: the cycle baseline moves to the
      current count; behind the deadline the frame skip grows by one, or at
      its maximum restarts from zero with the deadline rebased to one
      millisecond after now; otherwise the frame skip is cleared and the call
      returns only at the first reading that has reached the deadline. */
  lemma SyncOutcomes(p: Pacing, cycles: int, cps: int, clock: nat -> int)
    requires cps > 0 && StrictlyIncreasing(clock)
    ensures var q := Sync(p, cycles, cps, clock);
            var deadline := p.startTime + FrameMillis(cycles - p.startCycles, cps);
            var now := clock(p.clockReads);
            && q.startCycles == cycles
            && (now > deadline && p.frameSkip != MAX_FRAME_SKIP ==>
                  q.frameSkip == p.frameSkip + 1 && q.startTime == deadline && q.clockReads == p.clockReads + 1)
            && (now > deadline && p.frameSkip == MAX_FRAME_SKIP ==>
                  q.frameSkip == 0 && q.startTime == now + 1 && q.clockReads == p.clockReads + 1)
            && (now <= deadline ==>
                  q.frameSkip == 0 && q.startTime == deadline && q.clockReads > p.clockReads + 1 &&
                  clock(q.clockReads - 1) >= deadline &&
                  forall i :: p.clockReads < i < q.clockReads - 1 ==> clock(i) < deadline)
  {
    var deadline := p.startTime + FrameMillis(cycles - p.startCycles, cps);
    WaitUntilReached(clock, p.clockReads + 1, deadline);
  }

  /** The frame skip stays within [0, MAX_FRAME_SKIP] when it starts there. */
  lemma SyncFrameSkipBound(p: Pacing, cycles: int, cps: int, clock: nat -> int)
    requires cps > 0 && StrictlyIncreasing(clock)
    requires 0 <= p.frameSkip <= MAX_FRAME_SKIP
    ensures 0 <= Sync(p, cycles, cps, clock).frameSkip <= MAX_FRAME_SKIP
  {
  }

  /** Whether `emulate(mode)` can run to completion on `script`: the step
      modes need one instruction, RUN needs an instruction that ends the
      loop. */
  predicate CanEmulate(mode: int, runTo: int, script: seq<StepOutcome>)
  {
    && ((mode == STEP || mode == STEP_OVER) ==> |script| >= 1)
    && (mode == RUN ==> if runTo == -1 then CanFinish(script, 0, false) else CanFinish(script, runTo, true))
  }

  function RunSteps(runTo: int, script: seq<StepOutcome>): (n: nat)
    requires CanEmulate(RUN, runTo, script)
    ensures 1 <= n <= |script|
  {
    if runTo == -1 then RunLength(script, 0, false) else RunLength(script, runTo, true)
  }

  /** The processor state after `emulate(mode)`: one `step`, one `stepOver`,
      a run (to `runTo` unless it is -1), or nothing for any other mode. */
  ghost predicate Emulated(p: Processor, mode: int, runTo: int, script: seq<StepOutcome>,
                           c0: int, calls0: seq<int>, ret0: seq<Retired>, pc0: int, stopped0: bool)
    reads p
    requires CanEmulate(mode, runTo, script)
  {
    if mode == STEP || mode == STEP_OVER then
      && p.retired == ret0 + [if mode == STEP then Stepped(script[0]) else SteppedOver(script[0])]
      && p.pc == script[0].nextPc
      && p.stopped == (stopped0 || script[0].stopRequested)
      && p.cycles == c0 + script[0].cost
      && (p.hasCycleDevice ==> p.cycleCalls == calls0 + Counting(c0 + 1, script[0].cost))
      && (!p.hasCycleDevice ==> p.cycleCalls == calls0)
    else if mode == RUN then
      p.Ran(script, RunSteps(runTo, script), c0, calls0, ret0)
    else
      p.retired == ret0 && p.pc == pc0 && p.stopped == stopped0 && p.cycles == c0 && p.cycleCalls == calls0
  }

  class Computer {
    const processor: Processor
    /** The injected wall clock and how many times it has been read. */
    const clock: nat -> int
    var clockReads: nat

    var action: int
    var mode: int
    var running: bool
    var startTime: int
    var startCycles: int
    var frameSkip: int
    var runTo: int
    /** The catalogue, once `getFiles` has read it. */
    var files: Option<seq<FileDescriptor>>
    /** `fireActionEvent` calls made at the end of an action. */
    ghost var completions: nat

    ghost predicate Valid()
      reads this
    {
      StrictlyIncreasing(clock)
    }

    constructor (processor: Processor, clock: nat -> int)
      requires StrictlyIncreasing(clock)
      ensures Valid() && this.processor == processor && this.clock == clock
      ensures clockReads == 0 && action == STOP && mode == STOP && !running
      ensures frameSkip == 0 && runTo == -1 && files == None && completions == 0
    {
      this.processor := processor;
      this.clock := clock;
      clockReads := 0;
      action, mode, running := STOP, STOP, false;
      startTime, startCycles := 0, 0;
      frameSkip, runTo := 0, -1;
      files := None;
      completions := 0;
    }

    function PacingState(): Pacing
      reads this
    {
      Pacing(startTime, startCycles, frameSkip, clockReads)
    }

    /** `syncProcessor()`. */
    method SyncProcessor()
      requires Valid() && processor.cyclesPerSecond > 0
      modifies this`startTime, this`startCycles, this`frameSkip, this`clockReads
      ensures PacingState() == Sync(old(PacingState()), processor.cycles, processor.cyclesPerSecond, clock)
    {
      ghost var p := PacingState();
      startTime := startTime + FrameMillis(processor.cycles - startCycles, processor.cyclesPerSecond);
      startCycles := processor.cycles;
      var time := clock(clockReads);
      clockReads := clockReads + 1;
      if time > startTime {
        if frameSkip == MAX_FRAME_SKIP {
          SetFrameSkip(0);
          startTime := time + 1;
        } else {
          SetFrameSkip(frameSkip + 1);
        }
      } else {
        SetFrameSkip(0);
        WaitFor(startTime);
      }
    }

    /** The busy wait `while (currentTimeMillis() < target);`. */
    method WaitFor(target: int)
      requires Valid()
      modifies this`clockReads
      ensures clockReads == WaitUntil(clock, old(clockReads), target)
    {
      ghost var base := clockReads;
      var now := clock(clockReads);
      WaitUntilUnfold(clock, clockReads, target);
      clockReads := clockReads + 1;
      while now < target
        invariant clockReads > base && now == clock(clockReads - 1)
        invariant now < target ==> WaitUntil(clock, base, target) == WaitUntil(clock, clockReads, target)
        invariant now >= target ==> WaitUntil(clock, base, target) == clockReads
        decreases target - now
      {
        assert Advances(clock, clockReads - 1);
        now := clock(clockReads);
        WaitUntilUnfold(clock, clockReads, target);
        clockReads := clockReads + 1;
      }
    }

    /** `setFrameSkip(value)`. */
    method SetFrameSkip(value: int)
      modifies this`frameSkip
      ensures frameSkip == value
    {
      frameSkip := value;
    }

    /** `setRunToAddress(value)`. */
    method SetRunToAddress(value: int)
      modifies this`runTo
      ensures runTo == value
    {
      runTo := value;
    }

    /** `clearRunToAddress()`: back to "no target". */
    method ClearRunToAddress()
      modifies this`runTo
      ensures runTo == -1
    {
      runTo := -1;
    }

    /** `emulate(mode)`. */
    method Emulate(mode: int, script: seq<StepOutcome>)
      requires CanEmulate(mode, runTo, script)
      modifies processor`pc, processor`cycles, processor`cycleCalls, processor`stopped, processor`retired
      ensures Emulated(processor, mode, runTo, script, old(processor.cycles), old(processor.cycleCalls),
                       old(processor.retired), old(processor.pc), old(processor.stopped))
    {
      if mode == STEP {
        processor.Step(script[0]);
      } else if mode == STEP_OVER {
        processor.StepOver(script[0]);
      } else if mode == RUN {
        if runTo == -1 {
          var _ := processor.Run(script);
        } else {
          var _ := processor.RunTo(runTo, script);
        }
      }
    }

    /** One turn of the worker loop once an action is pending: the hand-off
        `mode := action; action := STOP`, the baseline for pacing, the
        emulation itself, then `running := false` and the completion
        event. */
    method ServeAction(script: seq<StepOutcome>)
      requires action != STOP && CanEmulate(action, runTo, script)
      modifies this`running, this`mode, this`action, this`startCycles, this`startTime, this`clockReads
      modifies this`completions
      modifies processor`pc, processor`cycles, processor`cycleCalls, processor`stopped, processor`retired
      ensures mode == old(action) && action == STOP && !running
      ensures startCycles == old(processor.cycles) && startTime == clock(old(clockReads))
      ensures clockReads == old(clockReads) + 1 && completions == old(completions) + 1
      ensures Emulated(processor, mode, runTo, script, old(processor.cycles), old(processor.cycleCalls),
                       old(processor.retired), old(processor.pc), old(processor.stopped))
    {
      running := true;
      mode := action;
      action := STOP;
      startCycles := processor.cycles;
      startTime := clock(clockReads);
      clockReads := clockReads + 1;
      Emulate(mode, script);
      running := false;
      completions := completions + 1;
    }

    /** `getFiles()`: parses the catalogue lines the first time and keeps
        the result. */
    method GetFiles(lines: seq<string>) returns (r: seq<FileDescriptor>)
      modifies this`files
      ensures old(files).Some? ==> files == old(files) && r == old(files).value
      ensures old(files).None? ==> r == CatalogueOf(lines) && files == Some(r)
    {
      if files.None? {
        var parsed := ParseCatalogue(lines);
        files := Some(parsed);
      }
      r := files.value;
    }

    /** `getFileInfo(fileName)`. */
    method GetFileInfo(lines: seq<string>, fileName: string) returns (r: Option<string>)
      modifies this`files
      ensures old(files).Some? ==> files == old(files)
      ensures old(files).None? ==> files == Some(CatalogueOf(lines))
      ensures r.None? <==> forall j :: 0 <= j < |files.value| ==> !EqualsIgnoreCase(files.value[j].filename, fileName)
      ensures r.Some? ==> exists j :: 0 <= j < |files.value| && EqualsIgnoreCase(files.value[j].filename, fileName) &&
                            r.value == files.value[j].instructions &&
                            forall k :: 0 <= k < j ==> !EqualsIgnoreCase(files.value[k].filename, fileName)
    {
      var all := GetFiles(lines);
      r := FindFileInfo(all, fileName);
    }
  }
}
