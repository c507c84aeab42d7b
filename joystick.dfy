/**
 * The joystick example: every 50 ms it reads the Y and X axes from ADC2 and
 * the push button, and prints the axes only when something changed: an axis
 * moved by more than 100 counts from the last value it remembered, or the
 * button went from released to pressed.
 */
module Joystick {
  import opened Ints

  /** The dead band, in ADC counts, inside which an axis counts as still. */
  const DeadBand: nat := 100

  /** The loop's four variables. */
  datatype JoyState = JoyState(prevVrx: U16, prevVry: U16, prevBtnState: bool, printVals: bool)

  /** Their values before the first iteration. */
  const Init: JoyState := JoyState(0, 0, false, true)

  /**
   * One iteration's readings. The Y axis is read first; if that fails the X
   * axis is not read, and if either fails the button is not read either.
   * `btnLow` is the button pin being low: pressed, with the pull-up.
   */
  datatype Reading =
    | VryFailed
    | VrxFailed
    | Sample(vry: U16, vrx: U16, btnLow: bool)

  datatype Output = ButtonPressed | ShowXY(x: U16, y: U16) | WaitMs(ms: nat)

  /**
   * One iteration of the loop: the new state and what it printed or waited
   * for. A failed read changes nothing and outputs nothing; a completed one
   * ends with the 50 ms wait, clears `print_vals` and remembers the button.
   */
  function Step(s: JoyState, r: Reading): (res: (JoyState, seq<Output>))
    ensures !r.Sample? ==> res == (s, [])
    ensures r.Sample? ==>
      |res.1| >= 1 && res.1[|res.1| - 1] == WaitMs(50) &&
      !res.0.printVals && res.0.prevBtnState == r.btnLow &&
      (ButtonPressed in res.1 <==> r.btnLow && !s.prevBtnState)
  {
    match r
    case VryFailed => (s, [])
    case VrxFailed => (s, [])
    case Sample(vry, vrx, btnLow) =>
      var movedX := AbsDiff(vrx, s.prevVrx) > DeadBand;
      var movedY := AbsDiff(vry, s.prevVry) > DeadBand;
      var pressed := btnLow && !s.prevBtnState;
      var show := s.printVals || movedX || movedY || pressed;
      var next := JoyState(if movedX then vrx else s.prevVrx, if movedY then vry else s.prevVry, btnLow, false);
      (next,
       (if pressed then [ButtonPressed] else []) + (if show then [ShowXY(vrx, vry)] else []) + [WaitMs(50)])
  }

  /**
   * The state and output after a run of iterations from `Init`. A remembered
   * axis value is 0, its initial value, or one the ADC actually returned.
   */
  function Run(readings: seq<Reading>): (res: (JoyState, seq<Output>))
    ensures res.0.prevVrx == 0 || exists i | 0 <= i < |readings| :: readings[i].Sample? && readings[i].vrx == res.0.prevVrx
    ensures res.0.prevVry == 0 || exists i | 0 <= i < |readings| :: readings[i].Sample? && readings[i].vry == res.0.prevVry
  {
    if readings == [] then (Init, [])
    else
      var (s, out) := Run(readings[..|readings| - 1]);
      var (s', more) := Step(s, readings[|readings| - 1]);
      (s', out + more)
  }

  /** `main`'s endless loop, one iteration per reading. */
  method MainLoop(readings: seq<Reading>) returns (state: JoyState, log: seq<Output>)
    ensures (state, log) == Run(readings)
  {
    var prevVrx: U16 := 0;
    var prevVry: U16 := 0;
    var prevBtnState := false;
    var printVals := true;
    log := [];
    for i := 0 to |readings|
      invariant (JoyState(prevVrx, prevVry, prevBtnState, printVals), log) == Run(readings[..i])
    {
      assert readings[..i + 1][..i] == readings[..i];
      ghost var before, s0 := log, JoyState(prevVrx, prevVry, prevBtnState, printVals);
      if !readings[i].Sample? {
        assert log + [] == log;
        continue;
      }
      var vry := readings[i].vry;
      var vrx := readings[i].vrx;
      if AbsDiff(vrx, prevVrx) > 100 {
        prevVrx := vrx;
        printVals := true;
      }
      if AbsDiff(vry, prevVry) > 100 {
        prevVry := vry;
        printVals := true;
      }
      var btnState := readings[i].btnLow;
      if btnState && !prevBtnState {
        log := log + [ButtonPressed];
        printVals := true;
      }
      prevBtnState := btnState;
      if printVals {
        printVals := false;
        log := log + [ShowXY(vrx, vry)];
      }
      log := log + [WaitMs(50)];
      assert log == before + Step(s0, readings[i]).1;
    }
    assert readings[..|readings|] == readings;
    state := JoyState(prevVrx, prevVry, prevBtnState, printVals);
  }

  /** A failed ADC read skips the iteration: nothing changes, nothing is printed and there is no wait. */
  lemma FailedReadSkips(s: JoyState, r: Reading)
    requires !r.Sample?
    ensures Step(s, r) == (s, [])
  {
  }

  /**
   * After a completed iteration each remembered axis is within the dead band
   * of that iteration's reading; it was replaced, by the reading itself,
   * exactly when the reading was more than 100 counts away.
   */
  lemma DeadBandTracking(s: JoyState, vry: U16, vrx: U16, btnLow: bool)
    ensures var s' := Step(s, Sample(vry, vrx, btnLow)).0;
      AbsDiff(vrx, s'.prevVrx) <= DeadBand && AbsDiff(vry, s'.prevVry) <= DeadBand &&
      (s'.prevVrx != s.prevVrx ==> s'.prevVrx == vrx) &&
      (s'.prevVrx == vrx <== AbsDiff(vrx, s.prevVrx) > DeadBand) &&
      (AbsDiff(vrx, s.prevVrx) <= DeadBand ==> s'.prevVrx == s.prevVrx) &&
      (s'.prevVry != s.prevVry ==> s'.prevVry == vry) &&
      (s'.prevVry == vry <== AbsDiff(vry, s.prevVry) > DeadBand) &&
      (AbsDiff(vry, s.prevVry) <= DeadBand ==> s'.prevVry == s.prevVry)
  {
  }

  /**
   * "Button Pressed" is printed exactly on a released-to-pressed edge, and a
   * completed iteration leaves the button reading remembered and `print_vals`
   * cleared.
   */
  lemma ButtonEdge(s: JoyState, vry: U16, vrx: U16, btnLow: bool)
    ensures var (s', out) := Step(s, Sample(vry, vrx, btnLow));
      (ButtonPressed in out <==> btnLow && !s.prevBtnState) &&
      s'.prevBtnState == btnLow && !s'.printVals
  {
  }

  /**
   * A completed iteration prints the axes iff the `print_vals` flag was still set
   * or an axis or button trigger fired; it always ends with the 50 ms wait.
   */
  lemma ShowsIff(s: JoyState, vry: U16, vrx: U16, btnLow: bool)
    ensures var out := Step(s, Sample(vry, vrx, btnLow)).1;
      (ShowXY(vrx, vry) in out <==>
        s.printVals || AbsDiff(vrx, s.prevVrx) > DeadBand || AbsDiff(vry, s.prevVry) > DeadBand ||
        (btnLow && !s.prevBtnState)) &&
      out[|out| - 1] == WaitMs(50)
  {
    var out := Step(s, Sample(vry, vrx, btnLow)).1;
    assert ShowXY(vrx, vry) !in [WaitMs(50)];
  }

  /** The four variables keep their initial values until the first reading that succeeds. */
  predicate NoSample(readings: seq<Reading>) {
    forall i | 0 <= i < |readings| :: !readings[i].Sample?
  }

  /**
   * The `print_vals` flag is still set exactly while no iteration has completed:
   * so the first completed iteration always prints and every later one prints
   * only when a trigger fired.
   */
  lemma {:induction false} ShowFlagUntilFirstSample(readings: seq<Reading>)
    ensures Run(readings).0.printVals <==> NoSample(readings)
    ensures NoSample(readings) ==> Run(readings) == (Init, [])
  {
    if readings != [] {
      var init := readings[..|readings| - 1];
      ShowFlagUntilFirstSample(init);
      if NoSample(readings) {
        assert NoSample(init);
        assert Run(init).1 + [] == Run(init).1;
      } else if NoSample(init) {
        assert readings[|readings| - 1].Sample?;
      } else {
        var k :| 0 <= k < |init| && init[k].Sample?;
        assert readings[k].Sample?;
      }
    }
  }

  /** The first completed iteration prints its readings. */
  lemma FirstSampleShows(readings: seq<Reading>, k: nat)
    requires k < |readings| && readings[k].Sample? && NoSample(readings[..k])
    ensures var r := readings[k];
      ShowXY(r.vrx, r.vry) in Step(Run(readings[..k]).0, r).1
  {
    ShowFlagUntilFirstSample(readings[..k]);
    ShowsIff(Init, readings[k].vry, readings[k].vrx, readings[k].btnLow);
  }
}
