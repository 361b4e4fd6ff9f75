/** The abstract processor of `jemu.core.cpu.Processor`: cycle counting,
    word access over its memory, the open-collector input bus, output
    broadcast, the interrupt-pending mask and the cooperative run loops.

    `step()` and `stepOver()` are abstract in `jemu.core.cpu.Processor`.
    Here each executed instruction is described by a `StepOutcome` supplied
    by the caller: the program counter after it, the T-states it costs and
    whether a `stop()` request arrived while it ran (in JEMU `stop()` is
    called from another thread and only observed between instructions). */
module Cpu {
  import opened JavaInt
  import opened Memory

  /** A device mapping on the port bus. `readPort` is the device's answer
      to `readPort(port)`; output devices are identified by `name`. */
  datatype DeviceMapping = DeviceMapping(name: string, readPort: int -> bv32)

  /** One `writePort(port, value)` call made by `out`. */
  datatype PortWrite = PortWrite(device: string, port: int, value: int)

  /** What one instruction does, as far as the base class can observe. */
  datatype StepOutcome = StepOutcome(nextPc: int, cost: nat, stopRequested: bool)

  /** Which abstract method retired an instruction. */
  datatype Retired = Stepped(outcome: StepOutcome) | SteppedOver(outcome: StepOutcome)

  /** The consecutive counter values `from, from + 1, …` (n of them). */
  function Counting(from: int, n: nat): (r: seq<int>)
    ensures |r| == n
    ensures forall i :: 0 <= i < n ==> r[i] == from + i
    decreases n
  {
    if n == 0 then [] else [from] + Counting(from + 1, n - 1)
  }

  lemma {:induction false} CountingAppend(from: int, n: nat, m: nat)
    ensures Counting(from, n) + Counting(from + n, m) == Counting(from, n + m)
  {
    var a, b := Counting(from, n) + Counting(from + n, m), Counting(from, n + m);
    assert |a| == |b|;
    forall i | 0 <= i < |a| ensures a[i] == b[i] {
      if i < n { assert a[i] == from + i; } else { assert a[i] == Counting(from + n, m)[i - n]; }
    }
  }

  /** What each mapping answers to `readPort(port)`, in array order. */
  function Readings(ms: seq<DeviceMapping>, port: int): (r: seq<bv32>)
    ensures |r| == |ms|
    ensures forall i :: 0 <= i < |ms| ==> r[i] == ms[i].readPort(port)
  {
    seq(|ms|, i requires 0 <= i < |ms| => ms[i].readPort(port))
  }

  /** `0xff` ANDed with every value, in order. */
  function AndAll(vs: seq<bv32>): bv32
  {
    if vs == [] then 0xff else AndAll(vs[..|vs| - 1]) & vs[|vs| - 1]
  }

  /** Bit k of a 32-bit value. */
  predicate BitOf(x: bv32, k: bv32)
    requires k < 32
  {
    (x >> k) & 1 == 1
  }

  /** The open-collector rule: a bit of the AND is set exactly when it is
      one of the low eight bits and no value has it clear. */
  lemma {:induction false} AndAllBits(vs: seq<bv32>, k: bv32)
    requires k < 32
    ensures BitOf(AndAll(vs), k) <==> k < 8 && forall i :: 0 <= i < |vs| ==> BitOf(vs[i], k)
  {
    if vs == [] {
      BitOfByteMask(k);
    } else {
      var init, last := vs[..|vs| - 1], vs[|vs| - 1];
      AndAllBits(init, k);
      AndAllSnocBit(vs, init, k);
      AllBitsSnoc(vs, init, k);
    }
  }

  /** Bit k of the AND of all values is bit k of the AND of all but the
      last, ANDed with bit k of the last. */
  lemma AndAllSnocBit(vs: seq<bv32>, init: seq<bv32>, k: bv32)
    requires k < 32 && vs != [] && init == vs[..|vs| - 1]
    ensures BitOf(AndAll(vs), k) <==> BitOf(AndAll(init), k) && BitOf(vs[|vs| - 1], k)
  {
    var x, y := AndAll(init), vs[|vs| - 1];
    assert AndAll(vs) == x & y;
    BitOfAnd(AndAll(vs), x, y, k);
  }

  /** Splitting off the last value splits the "every value has bit k". */
  lemma AllBitsSnoc(vs: seq<bv32>, init: seq<bv32>, k: bv32)
    requires k < 32 && vs != [] && init == vs[..|vs| - 1]
    ensures (forall i :: 0 <= i < |vs| ==> BitOf(vs[i], k)) <==>
            (forall i :: 0 <= i < |init| ==> BitOf(init[i], k)) && BitOf(vs[|vs| - 1], k)
  {
    assert forall i :: 0 <= i < |init| ==> init[i] == vs[i];
  }

  lemma BitOfByteMask(k: bv32)
    requires k < 32
    ensures BitOf(0xff, k) <==> k < 8
  {
  }

  lemma BitOfAnd(z: bv32, x: bv32, y: bv32, k: bv32)
    requires k < 32 && z == x & y
    ensures BitOf(z, k) <==> BitOf(x, k) && BitOf(y, k)
  {
  }

  /** The `writePort` calls that `out(port, value)` makes: one per output
      mapping, in registration order, with no filtering by port. */
  function Broadcast(ms: seq<DeviceMapping>, port: int, value: int): (r: seq<PortWrite>)
    ensures |r| == |ms|
    ensures forall i :: 0 <= i < |ms| ==> r[i] == PortWrite(ms[i].name, port, value)
  {
    if ms == [] then [] else [PortWrite(ms[0].name, port, value)] + Broadcast(ms[1..], port, value)
  }

  /** Whether the outcome ends a run: a stop was requested, or (for `runTo`)
      the program counter reached the target. */
  predicate EndsRun(o: StepOutcome, target: int, hasTarget: bool)
  {
    o.stopRequested || (hasTarget && o.nextPc == target)
  }

  predicate CanFinish(script: seq<StepOutcome>, target: int, hasTarget: bool)
  {
    exists i :: 0 <= i < |script| && EndsRun(script[i], target, hasTarget)
  }

  /** The number of instructions `run`/`runTo` executes on `script`: up to
      and including the first one after which the loop condition fails. */
  function RunLength(script: seq<StepOutcome>, target: int, hasTarget: bool): (n: nat)
    requires CanFinish(script, target, hasTarget)
    ensures 1 <= n <= |script|
    ensures EndsRun(script[n - 1], target, hasTarget)
    ensures forall j :: 0 <= j < n - 1 ==> !EndsRun(script[j], target, hasTarget)
  {
    if EndsRun(script[0], target, hasTarget) then 1
    else
      assert CanFinish(script[1..], target, hasTarget) by {
        var i :| 0 <= i < |script| && EndsRun(script[i], target, hasTarget);
        assert EndsRun(script[1..][i - 1], target, hasTarget);
      }
      1 + RunLength(script[1..], target, hasTarget)
  }

  function TotalCost(script: seq<StepOutcome>): nat
  {
    if script == [] then 0 else TotalCost(script[..|script| - 1]) + script[|script| - 1].cost
  }

  function AsStepped(script: seq<StepOutcome>): (r: seq<Retired>)
    ensures |r| == |script|
    ensures forall i :: 0 <= i < |script| ==> r[i] == Stepped(script[i])
  {
    if script == [] then [] else AsStepped(script[..|script| - 1]) + [Stepped(script[|script| - 1])]
  }

  class Processor {
    /** The bound memory (the model binds the flat 64 KB store). */
    const memory: VZMemory
    var inputDevice: seq<DeviceMapping>
    var outputDevice: seq<DeviceMapping>
    /** `cycleDevice != null` / `interruptDevice != null`. */
    var hasCycleDevice: bool
    var hasInterruptDevice: bool
    var interruptPending: bv32
    var cycles: int
    var cyclesPerSecond: int
    var stopped: bool
    /** The concrete CPU's program counter (`getProgramCounter`). */
    var pc: int

    /** Counter value seen by each `cycleDevice.cycle()` callback. */
    ghost var cycleCalls: seq<int>
    /** Every `writePort` call made by `out`. */
    ghost var portWrites: seq<PortWrite>
    /** Every instruction retired by `step` or `stepOver`. */
    ghost var retired: seq<Retired>

    ghost predicate Valid()
      reads this, memory
    {
      memory.Valid()
    }

    constructor (cyclesPerSecond: int, memory: VZMemory)
      requires memory.Valid()
      ensures Valid() && this.memory == memory && this.cyclesPerSecond == cyclesPerSecond
      ensures inputDevice == [] && outputDevice == []
      ensures !hasCycleDevice && !hasInterruptDevice
      ensures interruptPending == 0 && cycles == 0 && !stopped && pc == 0
      ensures cycleCalls == [] && portWrites == [] && retired == []
    {
      this.memory := memory;
      this.cyclesPerSecond := cyclesPerSecond;
      inputDevice, outputDevice := [], [];
      hasCycleDevice, hasInterruptDevice := false, false;
      interruptPending, cycles, stopped, pc := 0, 0, false, 0;
      cycleCalls, portWrites, retired := [], [], [];
    }

    /** `cycle(count)`: without a cycle device the counter jumps by `count`;
        with one, it counts up one T-state at a time and calls the device
        after each increment. */
    method Cycle(count: int)
      modifies this`cycles, this`cycleCalls
      ensures !hasCycleDevice ==> cycles == old(cycles) + count && cycleCalls == old(cycleCalls)
      ensures hasCycleDevice ==>
                var n := if count > 0 then count else 0;
                cycles == old(cycles) + n &&
                cycleCalls == old(cycleCalls) + Counting(old(cycles) + 1, n)
    {
      if !hasCycleDevice {
        cycles := cycles + count;
      } else {
        var left := count;
        while left > 0
          invariant left <= count || left <= 0
          invariant cycles == old(cycles) + (if count > 0 then count - (if left > 0 then left else 0) else 0)
          invariant cycleCalls == old(cycleCalls) + Counting(old(cycles) + 1, cycles - old(cycles))
          invariant count > 0 ==> 0 <= left
        {
          cycles := cycles + 1;
          cycleCalls := cycleCalls + [cycles];
          CountingAppend(old(cycles) + 1, cycles - 1 - old(cycles), 1);
          left := left - 1;
        }
      }
    }

    /** `reset()`: clears the cycle counter only. */
    method Reset()
      modifies this`cycles
      ensures cycles == 0
    {
      cycles := 0;
    }

    /** An instruction retired by the concrete `step()`: it moves the program
        counter, accounts its T-states through `cycle`, and may see a `stop()`
        request. */
    method Step(o: StepOutcome)
      modifies this`pc, this`cycles, this`cycleCalls, this`stopped, this`retired
      ensures pc == o.nextPc && stopped == (old(stopped) || o.stopRequested)
      ensures cycles == old(cycles) + o.cost
      ensures hasCycleDevice ==> cycleCalls == old(cycleCalls) + Counting(old(cycles) + 1, o.cost)
      ensures !hasCycleDevice ==> cycleCalls == old(cycleCalls)
      ensures retired == old(retired) + [Stepped(o)]
    {
      Cycle(o.cost);
      pc := o.nextPc;
      if o.stopRequested { stopped := true; }
      retired := retired + [Stepped(o)];
    }

    /** `stepOver()`: the same observable contract as `step`, for a call
        instruction run to its return. */
    method StepOver(o: StepOutcome)
      modifies this`pc, this`cycles, this`cycleCalls, this`stopped, this`retired
      ensures pc == o.nextPc && stopped == (old(stopped) || o.stopRequested)
      ensures cycles == old(cycles) + o.cost
      ensures hasCycleDevice ==> cycleCalls == old(cycleCalls) + Counting(old(cycles) + 1, o.cost)
      ensures !hasCycleDevice ==> cycleCalls == old(cycleCalls)
      ensures retired == old(retired) + [SteppedOver(o)]
    {
      Cycle(o.cost);
      pc := o.nextPc;
      if o.stopRequested { stopped := true; }
      retired := retired + [SteppedOver(o)];
    }

    /** `stop()`: a request seen at the next instruction boundary. */
    method Stop()
      modifies this`stopped
      ensures stopped
    {
      stopped := true;
    }

    /** `run()` (without a target) and `runTo(address)` (with one):
        `stopped := false`, then step at least once, until a step leaves
        `stopped` set or, for `runTo`, ends at the target address. */
    method RunLoop(script: seq<StepOutcome>, target: int, hasTarget: bool) returns (n: nat)
      requires CanFinish(script, target, hasTarget)
      modifies this`pc, this`cycles, this`cycleCalls, this`stopped, this`retired
      ensures n == RunLength(script, target, hasTarget)
      ensures pc == script[n - 1].nextPc
      ensures stopped == script[n - 1].stopRequested
      ensures cycles == old(cycles) + TotalCost(script[..n])
      ensures hasCycleDevice ==> cycleCalls == old(cycleCalls) + Counting(old(cycles) + 1, TotalCost(script[..n]))
      ensures !hasCycleDevice ==> cycleCalls == old(cycleCalls)
      ensures retired == old(retired) + AsStepped(script[..n])
    {
      stopped := false;
      ghost var c0, calls0, ret0 := cycles, cycleCalls, retired;
      Step(script[0]);
      n := 1;
      assert script[..1] == [script[0]] && script[..1][..0] == [];
      while !stopped && !(hasTarget && pc == target)
        invariant 1 <= n <= |script|
        invariant Ran(script, n, c0, calls0, ret0)
        invariant forall j :: 0 <= j < n - 1 ==> !EndsRun(script[j], target, hasTarget)
        decreases |script| - n
      {
        assert n < |script| by {
          var i :| 0 <= i < |script| && EndsRun(script[i], target, hasTarget);
          assert !(i < n);
        }
        StepNext(script, n, c0, calls0, ret0);
        n := n + 1;
      }
      RunLengthUnique(script, target, hasTarget, n);
    }

    /** `run()`: steps until a step leaves `stopped` set; at least one
        instruction always executes. */
    method Run(script: seq<StepOutcome>) returns (n: nat)
      requires CanFinish(script, 0, false)
      modifies this`pc, this`cycles, this`cycleCalls, this`stopped, this`retired
      ensures n == RunLength(script, 0, false) && stopped
      ensures Ran(script, n, old(cycles), old(cycleCalls), old(retired))
    {
      n := RunLoop(script, 0, false);
    }

    /** `runTo(address)`: as `run`, but also stops after an instruction that
        leaves the program counter at `address`; the check comes after the
        step, so one instruction runs even when already at the target. */
    method RunTo(address: int, script: seq<StepOutcome>) returns (n: nat)
      requires CanFinish(script, address, true)
      modifies this`pc, this`cycles, this`cycleCalls, this`stopped, this`retired
      ensures n == RunLength(script, address, true)
      ensures stopped || pc == address
      ensures Ran(script, n, old(cycles), old(cycleCalls), old(retired))
    {
      n := RunLoop(script, address, true);
    }

    /** The state after the first `n` instructions of `script`, started
        from counter `c0` and logs `calls0`, `ret0`. */
    ghost predicate Ran(script: seq<StepOutcome>, n: nat, c0: int, calls0: seq<int>, ret0: seq<Retired>)
      reads this
      requires 1 <= n <= |script|
    {
      && pc == script[n - 1].nextPc
      && stopped == script[n - 1].stopRequested
      && cycles == c0 + TotalCost(script[..n])
      && (hasCycleDevice ==> cycleCalls == calls0 + Counting(c0 + 1, TotalCost(script[..n])))
      && (!hasCycleDevice ==> cycleCalls == calls0)
      && retired == ret0 + AsStepped(script[..n])
    }

    /** One more turn of the run loop. */
    method StepNext(script: seq<StepOutcome>, n: nat, ghost c0: int, ghost calls0: seq<int>, ghost ret0: seq<Retired>)
      requires 1 <= n < |script| && Ran(script, n, c0, calls0, ret0) && !stopped
      modifies this`pc, this`cycles, this`cycleCalls, this`stopped, this`retired
      ensures Ran(script, n + 1, c0, calls0, ret0)
    {
      Step(script[n]);
      PrefixSnoc(script, n);
      if hasCycleDevice {
        CountingAppend(c0 + 1, TotalCost(script[..n]), script[n].cost);
      }
    }

    /** `in(port)`: the AND of `0xff` with every input mapping's reading. */
    method In(port: int) returns (r: bv32)
      ensures r == AndAll(Readings(inputDevice, port))
      ensures r <= 0xff
      ensures inputDevice == [] ==> r == 0xff
    {
      r := 0xff;
      var i := 0;
      while i < |inputDevice|
        invariant 0 <= i <= |inputDevice|
        invariant r == AndAll(Readings(inputDevice, port)[..i])
        invariant r <= 0xff
      {
        assert Readings(inputDevice, port)[..i + 1][..i] == Readings(inputDevice, port)[..i];
        r := r & inputDevice[i].readPort(port);
        i := i + 1;
      }
      assert Readings(inputDevice, port)[..i] == Readings(inputDevice, port);
    }

    /** `out(port, value)`: hands the value to every output mapping in
        order. */
    method Out(port: int, value: int)
      modifies this`portWrites
      ensures portWrites == old(portWrites) + Broadcast(outputDevice, port, value)
    {
      var i := 0;
      while i < |outputDevice|
        invariant 0 <= i <= |outputDevice|
        invariant portWrites == old(portWrites) + Broadcast(outputDevice[..i], port, value)
      {
        portWrites := portWrites + [PortWrite(outputDevice[i].name, port, value)];
        i := i + 1;
      }
      assert outputDevice[..i] == outputDevice;
    }

    /** `addInputDeviceMapping`: appends after the existing mappings. */
    method AddInputDeviceMapping(m: DeviceMapping)
      modifies this`inputDevice
      ensures inputDevice == old(inputDevice) + [m]
    {
      inputDevice := inputDevice + [m];
    }

    /** `addOutputDeviceMapping`: appends after the existing mappings. */
    method AddOutputDeviceMapping(m: DeviceMapping)
      modifies this`outputDevice
      ensures outputDevice == old(outputDevice) + [m]
    {
      outputDevice := outputDevice + [m];
    }

    method SetCycleDevice(present: bool)
      modifies this`hasCycleDevice
      ensures hasCycleDevice == present
    {
      hasCycleDevice := present;
    }

    method SetInterruptDevice(present: bool)
      modifies this`hasInterruptDevice
      ensures hasInterruptDevice == present
    {
      hasInterruptDevice := present;
    }

    method SetCyclesPerSecond(value: int)
      modifies this`cyclesPerSecond
      ensures cyclesPerSecond == value
    {
      cyclesPerSecond := value;
    }

    /** The concrete Z80's `setPC`. */
    method SetPC(value: int)
      modifies this`pc
      ensures pc == value
    {
      pc := value;
    }

    /** `setInterrupt(mask)`: `interruptPending |= mask`. */
    method SetInterrupt(mask: bv32)
      modifies this`interruptPending
      ensures interruptPending == RaiseMask(old(interruptPending), mask)
    {
      interruptPending := interruptPending | mask;
    }

    /** `clearInterrupt(mask)`: `interruptPending &= ~mask`. */
    method ClearInterrupt(mask: bv32)
      modifies this`interruptPending
      ensures interruptPending == ClearMask(old(interruptPending), mask)
    {
      interruptPending := interruptPending & !mask;
    }

    /** `readWord(addr)`: little-endian, the high byte from `(addr + 1) &
        0xffff`. */
    function ReadWord(addr: int): (r: int)
      reads this, memory, memory.mem
      requires Valid() && 0 <= addr < MEMORY_SIZE
      ensures 0 <= r < 65536
      ensures r % 256 == memory.ReadByte(addr) && r / 256 == memory.ReadByte((addr + 1) % 65536)
    {
      memory.ReadByte(addr) + memory.ReadByte((addr + 1) % 65536) * 256
    }

    /** `writeWord(addr, value)`: the low byte at `addr`, `value >> 8` at
        `(addr + 1) & 0xffff`; a following `readWord(addr)` gives back
        `value & 0xffff`. */
    method WriteWord(addr: int, value: int)
      requires Valid() && 0 <= addr < MEMORY_SIZE
      modifies memory.mem
      ensures memory.mem[..] ==
                Store(Store(old(memory.mem[..]), addr, ToByte(value)), (addr + 1) % 65536, ToByte(value / 256))
      ensures (addr + 1) % 65536 != addr
      ensures ReadWord(addr) == value % 65536
    {
      var _ := memory.WriteByte(addr, value);
      // `value >> 8` is an arithmetic shift: floor division by 256.
      var _ := memory.WriteByte((addr + 1) % 65536, value / 256);
      assert memory.ReadByte(addr) == value % 256;
      WordSplit(value);
    }
  }

  function RaiseMask(pending: bv32, mask: bv32): (r: bv32)
    ensures r & mask == mask
    ensures r & !mask == pending & !mask
  {
    pending | mask
  }

  function ClearMask(pending: bv32, mask: bv32): (r: bv32)
    ensures r & mask == 0
    ensures r & !mask == pending & !mask
  {
    pending & !mask
  }

  lemma WordSplit(v: int)
    ensures v % 256 + (v / 256) % 256 * 256 == v % 65536
  {
  }

  lemma PrefixSnoc(script: seq<StepOutcome>, n: nat)
    requires n < |script|
    ensures TotalCost(script[..n + 1]) == TotalCost(script[..n]) + script[n].cost
    ensures AsStepped(script[..n + 1]) == AsStepped(script[..n]) + [Stepped(script[n])]
  {
    assert script[..n + 1][..n] == script[..n];
  }

  lemma {:induction false} RunLengthUnique(script: seq<StepOutcome>, target: int, hasTarget: bool, n: nat)
    requires 1 <= n <= |script| && EndsRun(script[n - 1], target, hasTarget)
    requires forall j :: 0 <= j < n - 1 ==> !EndsRun(script[j], target, hasTarget)
    ensures CanFinish(script, target, hasTarget) && RunLength(script, target, hasTarget) == n
  {
    if n > 1 {
      assert !EndsRun(script[0], target, hasTarget);
      RunLengthUnique(script[1..], target, hasTarget, n - 1);
    }
  }
}
