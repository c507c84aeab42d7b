/**
 * The servo sweep example: a 50 Hz LEDC channel whose pulse of 2.5% to 12.5%
 * of the period sets the servo arm between 0 and 180 degrees.
 */
module Servo {
  import opened Ints

  /** `channel0.max_duty_cycle()` for the 12-bit timer configuration: 2^12. */
  const MaxDutyCycle12Bit: U16 := 4096

  /** The three numbers `main` derives from the channel's maximum duty. */
  datatype DutyRange = DutyRange(minDuty: U32, maxDuty: U32, gap: U32)

  /** `min_duty`, `max_duty` and `duty_gap` for a channel whose maximum duty is `m`. */
  function DutyRangeFor(m: U16): (r: DutyRange)
    ensures r.minDuty * 1000 <= 25 * m < (r.minDuty + 1) * 1000
    ensures r.maxDuty * 1000 <= 125 * m < (r.maxDuty + 1) * 1000
    ensures r.minDuty <= r.maxDuty <= m
    ensures r.minDuty + r.gap == r.maxDuty
  {
    var minDuty := (25 * m) / 1000;
    var maxDuty := (125 * m) / 1000;
    DutyRange(minDuty, maxDuty, maxDuty - minDuty)
  }

  /** For the 12-bit configuration the range is 102..512, with a gap of 410. */
  lemma TwelveBitRange()
    ensures DutyRangeFor(MaxDutyCycle12Bit) == DutyRange(102, 512, 410)
  {
  }

  /**
   * `duty_from_angle(deg, min_duty, duty_gap)`: the `u32` arithmetic
   * `min_duty + deg * duty_gap / 180` (which must not overflow), truncated by
   * `as u16`.
   */
  function DutyFromAngle(deg: U32, minDuty: U32, gap: U32): (duty: U16)
    requires deg * gap < U32_LIMIT && minDuty + (deg * gap) / 180 < U32_LIMIT
    ensures minDuty + (deg * gap) / 180 < U16_LIMIT ==> duty == minDuty + (deg * gap) / 180
    ensures (minDuty + (deg * gap) / 180 - duty) % U16_LIMIT == 0
  {
    MulMono(0, deg, gap);
    var x := minDuty + (deg * gap) / 180;
    TruncU16(x)
  }

  /**
   * The duty of an angle between 0 and 180 for a channel of maximum duty `m`:
   * within the servo's range, its minimum at 0 degrees and its maximum at 180.
   */
  function AngleDuty(m: U16, deg: nat): (duty: U16)
    requires deg <= 180
    ensures DutyRangeFor(m).minDuty <= duty <= DutyRangeFor(m).maxDuty
    ensures deg == 0 ==> duty == DutyRangeFor(m).minDuty
    ensures deg == 180 ==> duty == DutyRangeFor(m).maxDuty
  {
    var r := DutyRangeFor(m);
    GapBound(r, deg);
    DutyFromAngle(deg, r.minDuty, r.gap)
  }

  /** With an angle of at most 180 the scaled gap is at most the gap, so nothing overflows. */
  lemma GapBound(r: DutyRange, deg: nat)
    requires deg <= 180 && r.minDuty + r.gap == r.maxDuty < U16_LIMIT
    ensures 0 <= deg * r.gap <= 180 * r.gap < U32_LIMIT
    ensures 0 <= (deg * r.gap) / 180 <= r.gap && r.minDuty + (deg * r.gap) / 180 <= r.maxDuty
    ensures deg == 0 ==> (deg * r.gap) / 180 == 0
    ensures deg == 180 ==> (deg * r.gap) / 180 == r.gap
  {
    MulMono(0, deg, r.gap);
    MulMono(deg, 180, r.gap);
    DivMono(deg * r.gap, 180 * r.gap, 180);
    assert (180 * r.gap) / 180 == r.gap;
  }

  /**
   * Within a sweep no `as u16` cast loses bits, the end points are the range's
   * bounds, and every duty lies between them.
   */
  lemma {:induction false} AngleDutyInRange(m: U16, deg: nat)
    requires deg <= 180
    ensures var r := DutyRangeFor(m);
      AngleDuty(m, deg) == r.minDuty + (deg * r.gap) / 180 &&
      r.minDuty <= AngleDuty(m, deg) <= r.maxDuty &&
      (deg == 0 ==> AngleDuty(m, deg) == r.minDuty) &&
      (deg == 180 ==> AngleDuty(m, deg) == r.maxDuty)
  {
    var r := DutyRangeFor(m);
    GapBound(r, deg);
    var x := r.minDuty + (deg * r.gap) / 180;
    assert x <= r.maxDuty < U16_LIMIT;
    assert AngleDuty(m, deg) == DutyFromAngle(deg, r.minDuty, r.gap) == x;
  }

  /** A larger angle never gets a smaller duty. */
  lemma AngleDutyMonotone(m: U16, a: nat, b: nat)
    requires a <= b <= 180
    ensures AngleDuty(m, a) <= AngleDuty(m, b)
  {
    var r := DutyRangeFor(m);
    AngleDutyInRange(m, a);
    AngleDutyInRange(m, b);
    MulMono(a, b, r.gap);
    DivMono(a * r.gap, b * r.gap, 180);
  }

  lemma DivMono(x: nat, y: nat, d: nat)
    requires x <= y && d > 0
    ensures x / d <= y / d
  {
    var qx, qy := x / d, y / d;
    assert d * qx <= x && y < d * (qy + 1);
    if qx > qy {
      MulMono(qy + 1, qx, d);
    }
  }

  /** The `u32` products of a sweep stay far below overflow. */
  lemma GapFits(m: U16, deg: nat)
    requires deg <= 180
    ensures var r := DutyRangeFor(m);
      deg * r.gap <= 180 * r.gap < U32_LIMIT && r.minDuty + (deg * r.gap) / 180 < U16_LIMIT
  {
    var r := DutyRangeFor(m);
    GapBound(r, deg);
  }

  /** What the sweep does to the channel and the delay, in order. */
  datatype Event = SetDutyCycle(duty: U16) | DelayMs(ms: nat)

  /** The angles of the upward sweep, 0 to 180. */
  function Ascending(): (degs: seq<nat>)
    ensures |degs| == 181 && forall i | 0 <= i < 181 :: degs[i] == i
  {
    seq(181, i => i)
  }

  /** The angles of the downward sweep, 180 to 0. */
  function Descending(): (degs: seq<nat>)
    ensures |degs| == 181 && forall i | 0 <= i < 181 :: degs[i] == 180 - i
  {
    seq(181, i => 180 - i)
  }

  /** Each angle's duty followed by the 10 ms step delay: two events per angle, and every wait is 10 ms. */
  function StepEvents(m: U16, degs: seq<nat>): (ev: seq<Event>)
    requires forall i | 0 <= i < |degs| :: degs[i] <= 180
    ensures |ev| == 2 * |degs|
    ensures forall k | 0 <= k < |ev| && ev[k].DelayMs? :: ev[k].ms == 10
  {
    if degs == [] then []
    else StepEvents(m, degs[..|degs| - 1]) + [SetDutyCycle(AngleDuty(m, degs[|degs| - 1])), DelayMs(10)]
  }

  /**
   * One turn of the endless `loop`: up, hold 500 ms, down, hold 500 ms. The
   * 181 steps of each sweep take two events each, and the holds come right
   * after each sweep.
   */
  function SweepEvents(m: U16): (ev: seq<Event>)
    ensures |ev| == 2 * 181 + 1 + 2 * 181 + 1
    ensures ev[2 * 181] == DelayMs(500) && ev[|ev| - 1] == DelayMs(500)
  {
    StepEvents(m, Ascending()) + [DelayMs(500)] + StepEvents(m, Descending()) + [DelayMs(500)]
  }

  /** One turn of `main`'s loop, with both `for` loops. */
  method SweepOnce(maxDutyCycle: U16) returns (log: seq<Event>)
    ensures log == SweepEvents(maxDutyCycle)
  {
    var r := DutyRangeFor(maxDutyCycle);
    var minDuty, dutyGap := r.minDuty, r.gap;
    log := [];
    for deg := 0 to 181
      invariant log == StepEvents(maxDutyCycle, Ascending()[..deg])
    {
      StepEventsSnoc(maxDutyCycle, Ascending(), deg);
      var step := Step(maxDutyCycle, minDuty, dutyGap, deg);
      log := log + step;
    }
    assert Ascending()[..181] == Ascending();
    log := log + [DelayMs(500)];
    ghost var up := log;
    var k := 0;
    while k < 181
      invariant 0 <= k <= 181
      invariant log == up + StepEvents(maxDutyCycle, Descending()[..k])
    {
      StepEventsSnoc(maxDutyCycle, Descending(), k);
      var step := Step(maxDutyCycle, minDuty, dutyGap, 180 - k);
      log := log + step;
      k := k + 1;
    }
    assert Descending()[..181] == Descending();
    log := log + [DelayMs(500)];
  }

  /** One iteration of either `for` loop: set the angle's duty, then wait 10 ms. */
  method Step(maxDutyCycle: U16, minDuty: U32, dutyGap: U32, deg: nat) returns (events: seq<Event>)
    requires deg <= 180
    requires DutyRangeFor(maxDutyCycle).minDuty == minDuty && DutyRangeFor(maxDutyCycle).gap == dutyGap
    ensures events == [SetDutyCycle(AngleDuty(maxDutyCycle, deg)), DelayMs(10)]
  {
    GapFits(maxDutyCycle, deg);
    var duty := DutyFromAngle(deg, minDuty, dutyGap);
    events := [SetDutyCycle(duty), DelayMs(10)];
  }

  /** The events of one more angle of a sweep. */
  lemma StepEventsSnoc(m: U16, degs: seq<nat>, k: nat)
    requires k < |degs| && forall i | 0 <= i < |degs| :: degs[i] <= 180
    ensures StepEvents(m, degs[..k + 1]) == StepEvents(m, degs[..k]) + [SetDutyCycle(AngleDuty(m, degs[k])), DelayMs(10)]
  {
    assert degs[..k + 1][..k] == degs[..k];
  }

  /** The duties written by a list of events. */
  function Duties(events: seq<Event>): seq<U16> {
    if events == [] then []
    else Duties(events[..|events| - 1]) + (if events[|events| - 1].SetDutyCycle? then [events[|events| - 1].duty] else [])
  }

  lemma {:induction false} DutiesConcat(a: seq<Event>, b: seq<Event>)
    ensures Duties(a + b) == Duties(a) + Duties(b)
    decreases |b|
  {
    if b == [] {
      assert a + b == a;
    } else {
      assert (a + b)[..|a + b| - 1] == a + b[..|b| - 1];
      assert (a + b)[|a + b| - 1] == b[|b| - 1];
      DutiesConcat(a, b[..|b| - 1]);
    }
  }

  /** The duties written while visiting `degs` are exactly those angles' duties, in order. */
  lemma {:induction false} StepDuties(m: U16, degs: seq<nat>)
    requires forall i | 0 <= i < |degs| :: degs[i] <= 180
    ensures var ds := Duties(StepEvents(m, degs));
      |ds| == |degs| && forall i | 0 <= i < |degs| :: ds[i] == AngleDuty(m, degs[i])
  {
    if degs != [] {
      var init := degs[..|degs| - 1];
      StepDuties(m, init);
      var last := [SetDutyCycle(AngleDuty(m, degs[|degs| - 1])), DelayMs(10)];
      DutiesConcat(StepEvents(m, init), last);
      assert last[..1][..0] == [];
      assert last[..1] == [last[0]];
      assert Duties(last[..1]) == [AngleDuty(m, degs[|degs| - 1])];
      assert Duties(last) == Duties(last[..1]);
    }
  }

  /**
   * The upward sweep writes the duties of 0, 1, ..., 180 degrees, never
   * decreasing, from `min_duty` to `max_duty`; the downward sweep writes the
   * same duties in reverse order.
   */
  lemma SweepDuties(m: U16)
    ensures var r := DutyRangeFor(m);
      var up := Duties(StepEvents(m, Ascending()));
      var down := Duties(StepEvents(m, Descending()));
      |up| == 181 && |down| == 181 &&
      up[0] == r.minDuty && up[180] == r.maxDuty &&
      (forall i | 0 <= i < 181 :: r.minDuty <= up[i] <= r.maxDuty && down[i] == up[180 - i]) &&
      (forall i, j | 0 <= i <= j < 181 :: up[i] <= up[j])
  {
    StepDuties(m, Ascending());
    StepDuties(m, Descending());
    AngleDutyInRange(m, 0);
    AngleDutyInRange(m, 180);
    forall i | 0 <= i < 181 ensures DutyRangeFor(m).minDuty <= AngleDuty(m, i) <= DutyRangeFor(m).maxDuty {
      AngleDutyInRange(m, i);
    }
    forall i, j | 0 <= i <= j < 181 ensures AngleDuty(m, i) <= AngleDuty(m, j) {
      AngleDutyMonotone(m, i, j);
    }
  }
}
