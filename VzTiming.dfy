/** The per-T-state bookkeeping of `jemu.system.vz.VZ.cycle()` as pure
    functions: the beam position within a frame, the flyback flag, the
    interrupt raised at the start of flyback, the audio resync every 50
    frames, the fixed-point sound-sample accumulator and the sound latch
    rule of `writeByte`. */
module VzTiming {
  import opened JavaInt

  const CYCLES_PER_SEC_VZ200: int := 3579500
  const CYCLES_PER_SEC_VZ300: int := 3546900
  const CYCLES_PER_SCAN: int := 228

  /** Bit 30: a sample is due whenever the accumulator has this bit set. */
  const AUDIO_TEST: nat := 0x4000_0000
  const AUDIO_RESYNC_FRAMES: int := 50

  /** Output levels indexed by latch bit 0 plus twice latch bit 5. */
  const SOUND_LEVELS: seq<JByte> := [127, -128, 0, 127]

  /** The constants the constructor derives for one model. */
  datatype FrameTiming = FrameTiming(cyclesPerSecond: int, scansPerFrame: int, scansOfFlyback: int)
  {
    function CyclesPerFrame(): int
    {
      CYCLES_PER_SCAN * scansPerFrame
    }

    function CyclesToFlyback(): int
    {
      CyclesPerFrame() - CYCLES_PER_SCAN * scansOfFlyback
    }

    /** Flyback starts strictly inside the frame. */
    predicate WellFormed()
    {
      0 < CyclesToFlyback() < CyclesPerFrame()
    }
  }

  /** The VZ-200 (312 scans, 57 of them flyback) or VZ-300 (310 and 56)
      timing chosen in the constructor. */
  function TimingFor(vz200: bool): (t: FrameTiming)
    ensures t.WellFormed()
    ensures vz200 ==> t.cyclesPerSecond == 3579500 && t.CyclesPerFrame() == 71136 && t.CyclesToFlyback() == 58140
    ensures !vz200 ==> t.cyclesPerSecond == 3546900 && t.CyclesPerFrame() == 70680 && t.CyclesToFlyback() == 57912
  {
    if vz200 then FrameTiming(CYCLES_PER_SEC_VZ200, 312, 57)
    else FrameTiming(CYCLES_PER_SEC_VZ300, 310, 56)
  }

  /** The frame fields of `VZ` together with counts of the events `cycle()`
      causes: audio resyncs (`player.sync()`), interrupts raised and
      completed frames. */
  datatype FrameCounters = FrameCounters(cycles: int, syncCnt: int, frameFlyback: int,
                                         resyncs: nat, interrupts: nat, frames: nat)

  /** The flyback flag for a beam position: clear from the start of flyback
      to the end of the frame, 0x80 before it. */
  function FlybackAt(cycles: int, t: FrameTiming): int
  {
    if cycles >= t.CyclesToFlyback() then 0x00 else 0x80
  }

  /** What `cycle()` keeps true between calls. */
  predicate InFrame(c: FrameCounters, t: FrameTiming)
  {
    && t.WellFormed()
    && 0 <= c.cycles < t.CyclesPerFrame()
    && 1 <= c.syncCnt <= AUDIO_RESYNC_FRAMES
    && c.frameFlyback == FlybackAt(c.cycles, t)
  }

  /** This tick starts flyback. */
  predicate FlybackStarts(c: FrameCounters, t: FrameTiming)
  {
    c.cycles + 1 == t.CyclesToFlyback()
  }

  /** This tick ends the frame. */
  predicate FrameEnds(c: FrameCounters, t: FrameTiming)
  {
    !FlybackStarts(c, t) && c.cycles + 1 == t.CyclesPerFrame()
  }

  /** The frame part of one `cycle()` call. */
  function Tick(c: FrameCounters, t: FrameTiming): FrameCounters
  {
    var n := c.cycles + 1;
    if n == t.CyclesToFlyback() then
      var s := c.syncCnt - 1;
      c.(cycles := n, frameFlyback := 0x00, interrupts := c.interrupts + 1,
         syncCnt := if s == 0 then AUDIO_RESYNC_FRAMES else s,
         resyncs := if s == 0 then c.resyncs + 1 else c.resyncs)
    else if n == t.CyclesPerFrame() then
      c.(cycles := 0, frameFlyback := 0x80, frames := c.frames + 1)
    else
      c.(cycles := n)
  }

  /** `n` calls of `cycle()`. */
  function TickN(c: FrameCounters, t: FrameTiming, n: nat): FrameCounters
  {
    if n == 0 then c else Tick(TickN(c, t, n - 1), t)
  }

  /** One tick keeps the beam inside the frame, the resync countdown in
      [1, 50] and the flyback flag in step with the beam. */
  lemma TickPreserves(c: FrameCounters, t: FrameTiming)
    requires InFrame(c, t)
    ensures InFrame(Tick(c, t), t)
  {
  }

  lemma {:induction false} TickNPreserves(c: FrameCounters, t: FrameTiming, n: nat)
    requires InFrame(c, t)
    ensures InFrame(TickN(c, t, n), t)
  {
    if n > 0 {
      TickNPreserves(c, t, n - 1);
      TickPreserves(TickN(c, t, n - 1), t);
    }
  }

  lemma {:induction false} TickNAdd(c: FrameCounters, t: FrameTiming, a: nat, b: nat)
    ensures TickN(c, t, a + b) == TickN(TickN(c, t, a), t, b)
  {
    if b > 0 {
      TickNAdd(c, t, a, b - 1);
    }
  }

  /** Between the events only the beam moves. */
  lemma {:induction false} QuietRun(c: FrameCounters, t: FrameTiming, n: nat)
    requires InFrame(c, t)
    requires c.cycles + n < t.CyclesToFlyback() || (t.CyclesToFlyback() <= c.cycles && c.cycles + n < t.CyclesPerFrame())
    ensures TickN(c, t, n) == c.(cycles := c.cycles + n)
  {
    if n > 0 {
      QuietRun(c, t, n - 1);
    }
  }

  /** The resync countdown after one more frame. */
  function NextSyncCnt(s: int): int
  {
    if s == 1 then AUDIO_RESYNC_FRAMES else s - 1
  }

  /** A whole frame from its first cycle: one interrupt, one frame, one step
      of the resync countdown, and the beam back at 0 with the flag set. */
  lemma OneFrame(c: FrameCounters, t: FrameTiming)
    requires InFrame(c, t) && c.cycles == 0
    ensures TickN(c, t, t.CyclesPerFrame()) == FrameDone(c)
  {
    var f, p := t.CyclesToFlyback(), t.CyclesPerFrame();
    var b := ToFlyback(c, t);
    TickNAdd(c, t, f, p - f);
    FlybackToEnd(b, t);
  }

  /** From the first cycle to the start of flyback. */
  lemma ToFlyback(c: FrameCounters, t: FrameTiming) returns (b: FrameCounters)
    requires InFrame(c, t) && c.cycles == 0
    ensures b == TickN(c, t, t.CyclesToFlyback()) && InFrame(b, t)
    ensures b == c.(cycles := t.CyclesToFlyback(), frameFlyback := 0x00, interrupts := c.interrupts + 1,
                    syncCnt := NextSyncCnt(c.syncCnt), resyncs := c.resyncs + (if c.syncCnt == 1 then 1 else 0))
  {
    var f := t.CyclesToFlyback();
    QuietRun(c, t, f - 1);
    var a := c.(cycles := f - 1);
    TickNSnoc(c, t, f - 1);
    b := Tick(a, t);
    TickPreserves(a, t);
  }

  /** From the start of flyback to the end of the frame. */
  lemma FlybackToEnd(b: FrameCounters, t: FrameTiming)
    requires InFrame(b, t) && b.cycles == t.CyclesToFlyback()
    ensures TickN(b, t, t.CyclesPerFrame() - t.CyclesToFlyback()) ==
              b.(cycles := 0, frameFlyback := 0x80, frames := b.frames + 1)
  {
    var f, p := t.CyclesToFlyback(), t.CyclesPerFrame();
    QuietRun(b, t, p - f - 1);
    TickNSnoc(b, t, p - f - 1);
  }

  lemma TickNSnoc(c: FrameCounters, t: FrameTiming, n: nat)
    ensures TickN(c, t, n + 1) == Tick(TickN(c, t, n), t)
  {
  }

  /** The counters after the frame that starts at `c`. */
  function FrameDone(c: FrameCounters): FrameCounters
  {
    c.(syncCnt := NextSyncCnt(c.syncCnt), resyncs := c.resyncs + (if c.syncCnt == 1 then 1 else 0),
       interrupts := c.interrupts + 1, frames := c.frames + 1)
  }

  /** The counters after `k` frames that start at `c`. */
  function FramesDone(c: FrameCounters, k: nat): FrameCounters
    requires c.syncCnt <= AUDIO_RESYNC_FRAMES
  {
    c.(syncCnt := (c.syncCnt - 1 - k) % AUDIO_RESYNC_FRAMES + 1,
       resyncs := c.resyncs + (k + AUDIO_RESYNC_FRAMES - c.syncCnt) / AUDIO_RESYNC_FRAMES,
       interrupts := c.interrupts + k, frames := c.frames + k)
  }

  lemma CountdownStep(c: FrameCounters, k: nat)
    requires 1 <= c.syncCnt <= AUDIO_RESYNC_FRAMES
    ensures FrameDone(FramesDone(c, k)) == FramesDone(c, k + 1)
  {
    var s := c.syncCnt;
    var q := (s - 1 - k) % 50;
    assert s - 1 - k == 50 * ((s - 1 - k) / 50) + q;
    if q == 0 {
      assert (s - 2 - k) % 50 == 49;
      assert (k + 1 + 50 - s) / 50 == (k + 50 - s) / 50 + 1;
    } else {
      assert (s - 2 - k) % 50 == q - 1;
      assert (k + 1 + 50 - s) / 50 == (k + 50 - s) / 50;
    }
  }

  /** `k` whole frames from the first cycle: the countdown moves `k` steps
      round 50..1 and one resync happens each time it passes 1. */
  lemma {:induction false} Frames(c: FrameCounters, t: FrameTiming, k: nat)
    requires InFrame(c, t) && c.cycles == 0
    ensures TickN(c, t, k * t.CyclesPerFrame()) == FramesDone(c, k)
  {
    if k == 0 {
      assert FramesDone(c, 0) == c;
    } else {
      var p := t.CyclesPerFrame();
      Frames(c, t, k - 1);
      var d := FramesDone(c, k - 1);
      assert (k - 1) * p + p == k * p;
      TickNAdd(c, t, (k - 1) * p, p);
      assert InFrame(d, t);
      OneFrame(d, t);
      CountdownStep(c, k - 1);
    }
  }

  /** Every 50 frames the audio is resynchronised exactly once and the
      countdown is back where it started. */
  lemma FiftyFrames(c: FrameCounters, t: FrameTiming)
    requires InFrame(c, t) && c.cycles == 0
    ensures var d := TickN(c, t, AUDIO_RESYNC_FRAMES * t.CyclesPerFrame());
            d.resyncs == c.resyncs + 1 && d.syncCnt == c.syncCnt && d.frames == c.frames + 50
  {
    Frames(c, t, AUDIO_RESYNC_FRAMES);
  }

  /** The sound part of one `cycle()` call: the 32-bit `soundUpdate +=
      audioAdd`, then whether bit 30 is set, in which case it is taken off
      and a sample is written. */
  function SoundTick(soundUpdate: int, audioAdd: int): (r: (int, bool))
  {
    var s := Wrap32(soundUpdate + audioAdd);
    if HasBit(s, AUDIO_TEST) then (s - AUDIO_TEST, true) else (s, false)
  }

  /** Within the documented range the accumulator stays in [0, 2^30) and a
      sample is written exactly when the sum reaches 2^30. */
  lemma SoundTickBounded(soundUpdate: int, audioAdd: int)
    requires 0 <= soundUpdate < AUDIO_TEST && 0 <= audioAdd < AUDIO_TEST
    ensures var (s, sample) := SoundTick(soundUpdate, audioAdd);
            && 0 <= s < AUDIO_TEST
            && (sample <==> soundUpdate + audioAdd >= AUDIO_TEST)
            && s + (if sample then AUDIO_TEST else 0) == soundUpdate + audioAdd
  {
  }

  /** `n` sound ticks: the final accumulator and the number of samples. */
  function SoundRun(soundUpdate: int, audioAdd: int, n: nat): (int, nat)
  {
    if n == 0 then (soundUpdate, 0)
    else
      var (s, count) := SoundRun(soundUpdate, audioAdd, n - 1);
      var (s', sample) := SoundTick(s, audioAdd);
      (s', if sample then count + 1 else count)
  }

  /** Over `n` cycles exactly floor((soundUpdate + n*audioAdd) / 2^30)
      samples are written and the rest stays in the accumulator. */
  lemma {:induction false} SoundRunCount(soundUpdate: int, audioAdd: int, n: nat)
    requires 0 <= soundUpdate < AUDIO_TEST && 0 <= audioAdd < AUDIO_TEST
    ensures var (s, count) := SoundRun(soundUpdate, audioAdd, n);
            && 0 <= s < AUDIO_TEST
            && s + AUDIO_TEST * count == soundUpdate + n * audioAdd
            && count == (soundUpdate + n * audioAdd) / AUDIO_TEST
  {
    if n > 0 {
      SoundRunCount(soundUpdate, audioAdd, n - 1);
      var (s, count) := SoundRun(soundUpdate, audioAdd, n - 1);
      SoundTickBounded(s, audioAdd);
      assert soundUpdate + n * audioAdd == soundUpdate + (n - 1) * audioAdd + audioAdd;
    }
    var (s, count) := SoundRun(soundUpdate, audioAdd, n);
    DivOfRemainder(s, count, soundUpdate + n * audioAdd);
  }

  lemma DivOfRemainder(s: int, count: int, total: int)
    requires 0 <= s < AUDIO_TEST && s + AUDIO_TEST * count == total
    ensures count == total / AUDIO_TEST
  {
  }

  /** The latch bits the sound output follows: bit 0 and bit 5. */
  predicate LatchToggled(previous: int, value: int)
  {
    HasBit(previous, 1) != HasBit(value, 1) || HasBit(previous, 32) != HasBit(value, 32)
  }

  /** `(value & 0x01) | ((value >> 4) & 0x02)`: bit 0 of the latch value,
      plus bit 5 moved to position 1. */
  function SoundIndex(value: int): (i: int)
    ensures 0 <= i < |SOUND_LEVELS|
  {
    (if HasBit(value, 1) then 1 else 0) + (if HasBit(value, 32) then 2 else 0)
  }

  /** A latch write that does not toggle bit 0 or bit 5 selects the level
      already playing, and one that does toggle selects another index. */
  lemma SoundIndexFollowsLatch(previous: int, value: int)
    ensures LatchToggled(previous, value) <==> SoundIndex(previous) != SoundIndex(value)
  {
  }
}
