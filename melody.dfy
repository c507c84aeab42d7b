/**
 * The melody loop of the passive-buzzer example. Each `(note, divider)` entry
 * either waits silently for the note's length (a rest) or programs the LEDC
 * timer with the note's frequency at 50% duty, plays for 90% of the length,
 * silences the channel and pauses for the remaining 10%. The busy-wait
 * `blocking_delay` becomes a logged `DelayMs` event.
 */
module Melody {
  import opened Ints
  import opened Music

  /** One entry of a melody: a frequency in whole Hz (`Rest` for a pause) and a divider. */
  datatype Entry = Entry(note: nat, divider: I16)

  /** What the loop does to the hardware, in order. */
  datatype Event =
    | ConfigureTimer(hz: nat)        // timer 0 reconfigured to the note's frequency
    | ConfigureChannel(dutyPct: nat) // channel 0 attached to the timer at this duty
    | SetDuty(pct: nat)              // duty changed on channel 0
    | DelayMs(ms: nat)               // one `blocking_delay`
    | IdleForever(periodMs: nat)     // the final `loop` of delays that never ends

  /** The duty used for every sounding note. */
  const SoundDutyPct: nat := 50

  /** The period of the idle loop after the melody. */
  const IdlePeriodMs: nat := 5

  /** Every divider of the melody is usable by `calc_note_duration`. */
  predicate Playable(melody: seq<Entry>) {
    forall i | 0 <= i < |melody| :: melody[i].divider != 0
  }

  /** The silent tail of a note: a tenth of its length, rounded down. */
  function PauseOf(duration: nat): (p: nat)
    ensures 10 * p <= duration < 10 * (p + 1)
  {
    duration / 10
  }

  /**
   * The events of one melody entry: its delays add up to the note's length,
   * and it programs the timer once exactly when it is not a rest.
   */
  function NoteEvents(song: Song, e: Entry): (ev: seq<Event>)
    requires e.divider != 0
    ensures TotalDelay(ev) == CalcNoteDuration(song, e.divider)
    ensures TimerConfigurations(ev) == if e.note == Rest then 0 else 1
  {
    var d := CalcNoteDuration(song, e.divider);
    if e.note == Rest then
      AppendOne([], DelayMs(d));
      assert [] + [DelayMs(d)] == [DelayMs(d)];
      [DelayMs(d)]
    else
      SoundingTiming(e.note, d, PauseOf(d));
      [ConfigureTimer(e.note), ConfigureChannel(SoundDutyPct),
       DelayMs(d - PauseOf(d)), SetDuty(0), DelayMs(PauseOf(d))]
  }

  /**
   * The events of a whole melody, each entry's in melody order: the melody
   * spends exactly the sum of its note lengths in delays, and programs the
   * timer once per sounding entry.
   */
  function MelodyEvents(song: Song, melody: seq<Entry>): (ev: seq<Event>)
    requires Playable(melody)
    ensures TotalDelay(ev) == MelodyLength(song, melody)
    ensures TimerConfigurations(ev) == SoundingNotes(melody)
  {
    if melody == [] then []
    else
      var before, last := MelodyEvents(song, melody[..|melody| - 1]), NoteEvents(song, melody[|melody| - 1]);
      TotalDelayConcat(before, last);
      before + last
  }

  /** Time one event spends in `blocking_delay`. */
  function DelayOf(e: Event): nat {
    if e.DelayMs? then e.ms else 0
  }

  /** Total time spent in `blocking_delay` by a list of events. */
  function TotalDelay(events: seq<Event>): nat {
    if events == [] then 0
    else TotalDelay(events[..|events| - 1]) + DelayOf(events[|events| - 1])
  }

  /** Number of timer configurations in a list of events. */
  function TimerConfigurations(events: seq<Event>): nat {
    if events == [] then 0
    else TimerConfigurations(events[..|events| - 1]) + Configures(events[|events| - 1])
  }

  /** Whether an event programs the timer. */
  function Configures(e: Event): nat {
    if e.ConfigureTimer? then 1 else 0
  }

  lemma AppendOne(events: seq<Event>, e: Event)
    ensures TotalDelay(events + [e]) == TotalDelay(events) + DelayOf(e)
    ensures TimerConfigurations(events + [e]) == TimerConfigurations(events) + Configures(e)
  {
    assert (events + [e])[..|events|] == events;
  }

  /** Sum of the note lengths of a melody. */
  function MelodyLength(song: Song, melody: seq<Entry>): nat
    requires Playable(melody)
  {
    if melody == [] then 0
    else MelodyLength(song, melody[..|melody| - 1]) + CalcNoteDuration(song, melody[|melody| - 1].divider)
  }

  /** Number of entries that sound (are not rests). */
  function SoundingNotes(melody: seq<Entry>): nat {
    if melody == [] then 0
    else SoundingNotes(melody[..|melody| - 1]) + (if melody[|melody| - 1].note != Rest then 1 else 0)
  }

  /**
   * The main loop: for every entry of the melody, in order, the entry's
   * events; then delays of 5 ms forever.
   */
  method PlayMelody(tempo: U16, melody: seq<Entry>) returns (log: seq<Event>)
    requires tempo > 0 && Playable(melody)
    ensures log == MelodyEvents(NewSong(tempo), melody) + [IdleForever(IdlePeriodMs)]
  {
    var song := NewSong(tempo);
    log := [];
    for i := 0 to |melody|
      invariant log == MelodyEvents(song, melody[..i])
    {
      var note, durationType := melody[i].note, melody[i].divider;
      var noteDuration := CalcNoteDuration(song, durationType);
      var pauseDuration := noteDuration / 10;
      assert melody[..i + 1][..i] == melody[..i];
      if note == Rest {
        log := log + [DelayMs(noteDuration)];
        continue;
      }
      log := log + [ConfigureTimer(note)];
      log := log + [ConfigureChannel(50)];
      log := log + [DelayMs(noteDuration - pauseDuration)];
      log := log + [SetDuty(0)];
      log := log + [DelayMs(pauseDuration)];
    }
    assert melody[..|melody|] == melody;
    log := log + [IdleForever(5)];
  }

  /**
   * A sounding note is split into sound and silence that add up to exactly
   * the note's length; the sound part is programmed at the note's frequency
   * and 50% duty, and the channel is silenced before the pause.
   */
  lemma SoundPlusSilence(song: Song, e: Entry)
    requires e.divider != 0 && e.note != Rest
    ensures var d := CalcNoteDuration(song, e.divider);
      var ev := NoteEvents(song, e);
      |ev| == 5 && ev[0] == ConfigureTimer(e.note) && ev[1] == ConfigureChannel(50) &&
      ev[2].DelayMs? && ev[3] == SetDuty(0) && ev[4].DelayMs? &&
      ev[2].ms + ev[4].ms == d && 10 * ev[4].ms <= d < 10 * ev[4].ms + 10 && ev[2].ms >= ev[4].ms
  {
  }

  /** A rest is one silent delay of the full length, with no timer or channel set up. */
  lemma RestIsSilent(song: Song, e: Entry)
    requires e.divider != 0 && e.note == Rest
    ensures NoteEvents(song, e) == [DelayMs(CalcNoteDuration(song, e.divider))]
    ensures TimerConfigurations(NoteEvents(song, e)) == 0
  {
  }

  lemma {:induction false} TotalDelayConcat(a: seq<Event>, b: seq<Event>)
    ensures TotalDelay(a + b) == TotalDelay(a) + TotalDelay(b)
    ensures TimerConfigurations(a + b) == TimerConfigurations(a) + TimerConfigurations(b)
    decreases |b|
  {
    if b == [] {
      assert a + b == a;
    } else {
      assert (a + b)[..|a + b| - 1] == a + b[..|b| - 1];
      assert (a + b)[|a + b| - 1] == b[|b| - 1];
      TotalDelayConcat(a, b[..|b| - 1]);
    }
  }

  /** A sounding note: the timer is programmed once, and the note and its pause add up to its length. */
  lemma SoundingTiming(note: nat, d: nat, p: nat)
    requires p <= d
    ensures var ev := [ConfigureTimer(note), ConfigureChannel(SoundDutyPct), DelayMs(d - p), SetDuty(0), DelayMs(p)];
      TotalDelay(ev) == d && TimerConfigurations(ev) == 1
  {
    FiveEvents(ConfigureTimer(note), ConfigureChannel(SoundDutyPct), DelayMs(d - p), SetDuty(0), DelayMs(p));
  }

  /** The delays and the timer configurations of five events, one by one. */
  lemma FiveEvents(e0: Event, e1: Event, e2: Event, e3: Event, e4: Event)
    ensures TotalDelay([e0, e1, e2, e3, e4]) == DelayOf(e0) + DelayOf(e1) + DelayOf(e2) + DelayOf(e3) + DelayOf(e4)
    ensures TimerConfigurations([e0, e1, e2, e3, e4]) ==
      Configures(e0) + Configures(e1) + Configures(e2) + Configures(e3) + Configures(e4)
  {
    var p1 := [e0];
    var p2 := p1 + [e1];
    var p3 := p2 + [e2];
    var p4 := p3 + [e3];
    assert p4 + [e4] == [e0, e1, e2, e3, e4];
    AppendOne([], e0);
    assert [] + [e0] == p1;
    AppendOne(p1, e1);
    AppendOne(p2, e2);
    AppendOne(p3, e3);
    AppendOne(p4, e4);
  }

  /** Playing two melodies one after the other gives the events of the first, then those of the second. */
  lemma {:induction false} MelodyEventsConcat(song: Song, a: seq<Entry>, b: seq<Entry>)
    requires Playable(a) && Playable(b)
    ensures Playable(a + b)
    ensures MelodyEvents(song, a + b) == MelodyEvents(song, a) + MelodyEvents(song, b)
    decreases |b|
  {
    assert Playable(a + b) by {
      forall i | 0 <= i < |a + b| ensures (a + b)[i].divider != 0 {
        if i >= |a| {
          assert (a + b)[i] == b[i - |a|];
        }
      }
    }
    if b == [] {
      assert a + b == a;
    } else {
      var init := b[..|b| - 1];
      assert (a + b)[..|a + b| - 1] == a + init;
      assert Playable(init) by {
        forall i | 0 <= i < |init| ensures init[i].divider != 0 {
          assert init[i] == b[i];
        }
      }
      assert (a + b)[|a + b| - 1] == b[|b| - 1];
      MelodyEventsConcat(song, a, init);
      assert MelodyEvents(song, a + b) == MelodyEvents(song, a + init) + NoteEvents(song, b[|b| - 1]);
    }
  }
}
