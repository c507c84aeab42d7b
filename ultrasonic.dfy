/**
 * The HC-SR04 example: every cycle fires a 10 microsecond trigger pulse,
 * times the echo pulse with the RTC's microsecond counter, turns the width
 * into a distance and dims the on-board LED the further away the obstacle is
 * (full brightness at 0 cm, off from 30 cm on).
 */
module Ultrasonic {
  import opened Ints

  /** The distance, in cm, from which the LED is off. */
  const CutoffCm: real := 30.0

  /**
   * The echo pulse width from two RTC readings. The source subtracts
   * directly when the counter did not wrap, and otherwise computes
   * `u64::MAX - time1 + time2`, which cannot overflow (`u64::MAX - time1`
   * is at most `u64::MAX - time2 - 1` when `time2 < time1`).
   */
  function PulseWidth(time1: U64, time2: U64): (width: U64)
    ensures time2 >= time1 ==> time1 + width == time2
    ensures time2 < time1 ==> (time1 + width + 1) % U64_LIMIT == time2 && width < U64_LIMIT - 1
  {
    if time2 >= time1 then time2 - time1 else (U64_LIMIT - 1) - time1 + time2
  }

  /**
   * On a wrapped counter the source's pulse width is one microsecond short of
   * the true elapsed time `(time2 - time1) mod 2^64`; without a wrap it is
   * exact.
   */
  lemma PulseWidthAgainstElapsed(time1: U64, time2: U64)
    ensures time2 >= time1 ==> PulseWidth(time1, time2) == (time2 - time1) % U64_LIMIT
    ensures time2 < time1 ==> PulseWidth(time1, time2) + 1 == (time2 - time1) % U64_LIMIT
  {
  }

  /** `(pulse_width * 0.0343) / 2.0`, in exact arithmetic: the speed of sound there and back. */
  function Distance(width: U64): (cm: real)
    ensures cm >= 0.0
  {
    (width as real * 0.0343) / 2.0
  }

  /** `x as u8` for a float: truncation toward zero, saturating at 0 and 255. */
  function FloatToU8(x: real): (r: U8)
    ensures 0.0 <= x < 256.0 ==> r as real <= x < r as real + 1.0
    ensures x < 0.0 ==> r == 0
    ensures x >= 256.0 ==> r == 255
  {
    if x < 0.0 then 0 else if x >= 255.0 then 255 else x.Floor
  }

  /** The LED duty for a distance: `((30 - d) / 30 * 100) as u8`, clamped to 100, and 0 from 30 cm on. */
  function DutyPct(distance: real): (pct: U8)
    ensures pct <= 100
    ensures distance >= CutoffCm ==> pct == 0
    ensures 0.0 <= distance < CutoffCm ==>
      pct as real <= (CutoffCm - distance) / CutoffCm * 100.0 < pct as real + 1.0
  {
    if distance < 30.0 then
      var ratio := (30.0 - distance) / 30.0;
      var p := FloatToU8(ratio * 100.0);
      if p < 100 then p else 100
    else
      0
  }

  /** The nearer the obstacle, the brighter the LED. */
  lemma DutyPctAntitone(near: real, far: real)
    requires 0.0 <= near <= far
    ensures DutyPct(far) <= DutyPct(near)
  {
    if far < CutoffCm {
      var xn, xf := (CutoffCm - near) / CutoffCm * 100.0, (CutoffCm - far) / CutoffCm * 100.0;
      assert xf <= xn;
      assert DutyPct(far) as real <= xf;
      assert xn < DutyPct(near) as real + 1.0;
    }
  }

  /** An echo of 1750 microseconds or more is 30 cm or more away: the LED is off. */
  lemma LongEchoTurnsLedOff(width: U64)
    requires width >= 1750
    ensures DutyPct(Distance(width)) == 0
  {
    assert Distance(width) >= Distance(1750) >= CutoffCm;
  }

  /** What one measurement cycle does, in order. */
  datatype Event =
    | DelayMs(ms: nat)
    | DelayUs(us: nat)
    | TrigLow
    | TrigHigh
    | AwaitEchoHigh     // `while echo.is_low() {}`
    | AwaitEchoLow      // `while echo.is_high() {}`
    | SetDuty(pct: U8)
    | Panic             // `set_duty` failed: the program stops

  /** What the hardware answers in one cycle: the two RTC readings and whether `set_duty` succeeded. */
  datatype Echo = Echo(time1: U64, time2: U64, dutyAccepted: bool)

  /** The fixed trigger sequence: low, 2 us, high, 10 us, low. */
  const Trigger: seq<Event> := [TrigLow, DelayUs(2), TrigHigh, DelayUs(10), TrigLow]

  /**
   * The events of one turn of the main `loop`: a 5 ms wait, the trigger
   * pulse, both echo edges, the duty of at most 100% that the measured pulse
   * gives, then the 60 ms pause, or the panic when `set_duty` failed.
   */
  function CycleEvents(e: Echo): (ev: seq<Event>)
    ensures |ev| == 10 && ev[0] == DelayMs(5) && ev[1..6] == Trigger &&
      ev[6] == AwaitEchoHigh && ev[7] == AwaitEchoLow &&
      ev[8] == SetDuty(DutyPct(Distance(PulseWidth(e.time1, e.time2)))) && ev[8].pct <= 100 &&
      ev[9] == (if e.dutyAccepted then DelayMs(60) else Panic)
  {
    var pct := DutyPct(Distance(PulseWidth(e.time1, e.time2)));
    [DelayMs(5)] + Trigger + [AwaitEchoHigh, AwaitEchoLow, SetDuty(pct)] +
    (if e.dutyAccepted then [DelayMs(60)] else [Panic])
  }

  predicate Halted(log: seq<Event>) {
    log != [] && log[|log| - 1] == Panic
  }

  /**
   * The events of the main loop over a run of cycles, up to the first failed
   * `set_duty`; the run ends in a panic exactly when some `set_duty` failed.
   */
  function RunEvents(echoes: seq<Echo>): (log: seq<Event>)
    ensures Halted(log) <==> exists i | 0 <= i < |echoes| :: !echoes[i].dutyAccepted
  {
    if echoes == [] then []
    else
      var before := RunEvents(echoes[..|echoes| - 1]);
      if Halted(before) then before else before + CycleEvents(echoes[|echoes| - 1])
  }

  /** The main loop, one cycle per element of `echoes`. */
  method Run(echoes: seq<Echo>) returns (log: seq<Event>)
    ensures log == RunEvents(echoes)
  {
    log := [];
    var i := 0;
    while i < |echoes|
      invariant 0 <= i <= |echoes|
      invariant log == RunEvents(echoes[..i]) && !Halted(log)
    {
      var cycle := Cycle(echoes[i]);
      RunStep(echoes, i);
      log := log + cycle;
      if !echoes[i].dutyAccepted {
        HaltedRunStops(echoes[..i + 1], echoes[i + 1..]);
        assert echoes[..i + 1] + echoes[i + 1..] == echoes;
        return;
      }
      i := i + 1;
    }
    assert echoes[..i] == echoes;
  }

  /** One turn of the main loop, given what the hardware answers. */
  method Cycle(e: Echo) returns (ev: seq<Event>)
    ensures ev == CycleEvents(e)
  {
    ev := [DelayMs(5)];
    ev := ev + [TrigLow, DelayUs(2), TrigHigh, DelayUs(10), TrigLow];
    ev := ev + [AwaitEchoHigh];
    var time1 := e.time1;
    ev := ev + [AwaitEchoLow];
    var time2 := e.time2;
    var pulseWidth := if time2 >= time1 then time2 - time1 else (U64_LIMIT - 1) - time1 + time2;
    var distance := (pulseWidth as real * 0.0343) / 2.0;
    var dutyPct := DutyPct(distance);
    ev := ev + [SetDuty(dutyPct)];
    if !e.dutyAccepted {
      ev := ev + [Panic];
      return;
    }
    ev := ev + [DelayMs(60)];
  }

  /** One more cycle of an unhalted run: its events are appended, and it halts the run exactly when `set_duty` failed. */
  lemma RunStep(echoes: seq<Echo>, i: nat)
    requires i < |echoes| && !Halted(RunEvents(echoes[..i]))
    ensures RunEvents(echoes[..i + 1]) == RunEvents(echoes[..i]) + CycleEvents(echoes[i])
    ensures Halted(RunEvents(echoes[..i + 1])) <==> !echoes[i].dutyAccepted
  {
    assert echoes[..i + 1][..i] == echoes[..i];
    var before, cycle := RunEvents(echoes[..i]), CycleEvents(echoes[i]);
    CycleShape(echoes[i]);
    assert (before + cycle)[|before + cycle| - 1] == cycle[9];
  }

  /** Once a `set_duty` has failed nothing more happens, whatever the hardware would answer. */
  lemma {:induction false} HaltedRunStops(echoes: seq<Echo>, more: seq<Echo>)
    requires Halted(RunEvents(echoes))
    ensures RunEvents(echoes + more) == RunEvents(echoes)
    decreases |more|
  {
    if more == [] {
      assert echoes + more == echoes;
    } else {
      var init := more[..|more| - 1];
      assert (echoes + more)[..|echoes + more| - 1] == echoes + init;
      HaltedRunStops(echoes, init);
    }
  }

  /** Number of cycles in a list of events: each one sets the duty exactly once. */
  function DutyWrites(log: seq<Event>): nat {
    if log == [] then 0
    else DutyWrites(log[..|log| - 1]) + (if log[|log| - 1].SetDuty? then 1 else 0)
  }

  lemma {:induction false} DutyWritesConcat(a: seq<Event>, b: seq<Event>)
    ensures DutyWrites(a + b) == DutyWrites(a) + DutyWrites(b)
    decreases |b|
  {
    if b == [] {
      assert a + b == a;
    } else {
      assert (a + b)[..|a + b| - 1] == a + b[..|b| - 1];
      assert (a + b)[|a + b| - 1] == b[|b| - 1];
      DutyWritesConcat(a, b[..|b| - 1]);
    }
  }

  /** A cycle writes the duty exactly once, and halts the program exactly when `set_duty` failed. */
  lemma CycleShape(e: Echo)
    ensures DutyWrites(CycleEvents(e)) == 1
    ensures Halted(CycleEvents(e)) <==> !e.dutyAccepted
  {
    var ev := CycleEvents(e);
    var head := [DelayMs(5)] + Trigger + [AwaitEchoHigh, AwaitEchoLow];
    assert ev == head + [ev[8]] + [ev[9]];
    DutyWritesConcat(head, [ev[8]]);
    DutyWritesConcat(head + [ev[8]], [ev[9]]);
    assert head == [head[0]] + [head[1]] + [head[2]] + [head[3]] + [head[4]] + [head[5]] + [head[6]] + [head[7]];
    DutyWritesConcat([head[0]], [head[1]]);
    DutyWritesConcat([head[0]] + [head[1]], [head[2]]);
    DutyWritesConcat([head[0]] + [head[1]] + [head[2]], [head[3]]);
    DutyWritesConcat([head[0]] + [head[1]] + [head[2]] + [head[3]], [head[4]]);
    DutyWritesConcat([head[0]] + [head[1]] + [head[2]] + [head[3]] + [head[4]], [head[5]]);
    DutyWritesConcat([head[0]] + [head[1]] + [head[2]] + [head[3]] + [head[4]] + [head[5]], [head[6]]);
    DutyWritesConcat([head[0]] + [head[1]] + [head[2]] + [head[3]] + [head[4]] + [head[5]] + [head[6]], [head[7]]);
  }

  /**
   * A failed `set_duty` is never retried: if cycle `k` is the first whose
   * `set_duty` fails, the run is the first `k + 1` cycles, it ends in `Panic`,
   * and the duty was written exactly `k + 1` times.
   */
  lemma {:induction false} FirstFailureHalts(echoes: seq<Echo>, k: nat)
    requires k < |echoes| && !echoes[k].dutyAccepted
    requires forall i | 0 <= i < k :: echoes[i].dutyAccepted
    ensures RunEvents(echoes) == RunEvents(echoes[..k + 1])
    ensures Halted(RunEvents(echoes)) && DutyWrites(RunEvents(echoes)) == k + 1
  {
    NoFailureRuns(echoes[..k]);
    var base := echoes[..k + 1];
    assert base[..k] == echoes[..k];
    CycleShape(echoes[k]);
    DutyWritesConcat(RunEvents(echoes[..k]), CycleEvents(echoes[k]));
    assert Halted(RunEvents(base));
    HaltedRunStops(base, echoes[k + 1..]);
    assert base + echoes[k + 1..] == echoes;
  }

  /** While every `set_duty` succeeds the loop never stops and sets the duty once per cycle. */
  lemma {:induction false} NoFailureRuns(echoes: seq<Echo>)
    requires forall i | 0 <= i < |echoes| :: echoes[i].dutyAccepted
    ensures !Halted(RunEvents(echoes)) && DutyWrites(RunEvents(echoes)) == |echoes|
  {
    if echoes != [] {
      var init := echoes[..|echoes| - 1];
      NoFailureRuns(init);
      CycleShape(echoes[|echoes| - 1]);
      DutyWritesConcat(RunEvents(init), CycleEvents(echoes[|echoes| - 1]));
    }
  }
}
