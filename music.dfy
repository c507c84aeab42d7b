/**
 * Note lengths of the passive-buzzer example: a `Song` fixes the length of a
 * whole note from the tempo, and each melody entry's divider turns that into
 * the length of one note (a negative divider marks a dotted note).
 */
module Music {
  import opened Ints

  /** Number of milliseconds in four beats of one minute: 60 000 * 4. */
  const FourBeatsMs: int := 240000

  /**
   * The note frequencies, in Hz, from B0 to D#8. The sources declare them as
   * `f64`, but every one is a whole number, so the model keeps them as
   * naturals (and `note as u32` leaves them unchanged).
   */
  const NoteTable: seq<nat> :=
    [31] + Octave1 + Octave2 + Octave3 + Octave4 + Octave5 + Octave6 + Octave7 + Octave8

  /** C to B of octaves one to seven, and C8 to D#8. */
  const Octave1: seq<nat> := [33, 35, 37, 39, 41, 44, 46, 49, 52, 55, 58, 62]
  const Octave2: seq<nat> := [65, 69, 73, 78, 82, 87, 93, 98, 104, 110, 117, 123]
  const Octave3: seq<nat> := [131, 139, 147, 156, 165, 175, 185, 196, 208, 220, 233, 247]
  const Octave4: seq<nat> := [262, 277, 294, 311, 330, 349, 370, 392, 415, 440, 466, 494]
  const Octave5: seq<nat> := [523, 554, 587, 622, 659, 698, 740, 784, 831, 880, 932, 988]
  const Octave6: seq<nat> := [1047, 1109, 1175, 1245, 1319, 1397, 1480, 1568, 1661, 1760, 1865, 1976]
  const Octave7: seq<nat> := [2093, 2217, 2349, 2489, 2637, 2794, 2960, 3136, 3322, 3520, 3729, 3951]
  const Octave8: seq<nat> := [4186, 4435, 4699, 4978]

  /** The pseudo-frequency of a pause. */
  const Rest: nat := 0

  /** A song only remembers how long a whole note lasts, in milliseconds. */
  datatype Song = Song(wholeNote: U32)

  /** Songs built by `NewSong` from a non-zero tempo. */
  predicate ValidSong(song: Song) {
    song.wholeNote <= FourBeatsMs
  }

  /**
   * `Song::new(tempo)`: a whole note is four beats of `tempo` beats per
   * minute. The source divides by the tempo, so a zero tempo panics.
   */
  function NewSong(tempo: U16): (song: Song)
    requires tempo > 0
    ensures song.wholeNote * tempo <= FourBeatsMs < (song.wholeNote + 1) * tempo
    ensures ValidSong(song)
  {
    Song(FourBeatsMs / tempo)
  }

  /** `(x as f64 * 1.5) as u32` for a `u32` x: exact in `f64`, truncated and saturated by the cast. */
  function OneAndAHalf(x: U32): (r: U32)
    ensures 3 * x < 2 * U32_LIMIT ==> 2 * r <= 3 * x < 2 * r + 2
    ensures 3 * x >= 2 * U32_LIMIT ==> r == U32_LIMIT - 1
  {
    if 3 * x / 2 < U32_LIMIT then 3 * x / 2 else U32_LIMIT - 1
  }

  /**
   * `Song::calc_note_duration(divider)`: a positive divider splits the whole
   * note evenly; any other divider is a dotted note, one and a half times the
   * note of the same magnitude. A zero divider divides by zero in the source.
   */
  function CalcNoteDuration(song: Song, divider: I16): (d: U32)
    requires divider != 0
    ensures divider > 0 ==> d * divider <= song.wholeNote < (d + 1) * divider
    ensures divider < 0 ==>
      var plain := song.wholeNote / UnsignedAbs(divider);
      plain * UnsignedAbs(divider) <= song.wholeNote < (plain + 1) * UnsignedAbs(divider) &&
      (3 * plain < 2 * U32_LIMIT ==> 2 * d <= 3 * plain < 2 * d + 2)
  {
    DivFloor(song.wholeNote, UnsignedAbs(divider));
    if divider > 0 then
      song.wholeNote / divider
    else
      OneAndAHalf(song.wholeNote / UnsignedAbs(divider))
  }

  /** A plain note never lasts longer than a whole note. */
  lemma PlainNoteAtMostWhole(song: Song, divider: I16)
    requires divider > 0
    ensures CalcNoteDuration(song, divider) <= song.wholeNote
  {
    var d := CalcNoteDuration(song, divider);
    MulAtLeast(d, divider);
  }

  /**
   * In a song built from a tempo the dotted-note arithmetic never saturates:
   * the duration is exactly the floor of 1.5 times the plain duration.
   */
  lemma DottedNoteExact(song: Song, divider: I16)
    requires ValidSong(song) && divider < 0
    ensures var plain := song.wholeNote / UnsignedAbs(divider);
      plain <= FourBeatsMs &&
      CalcNoteDuration(song, divider) == (3 * plain) / 2 &&
      CalcNoteDuration(song, divider) <= FourBeatsMs * 3 / 2
  {
    var plain := song.wholeNote / UnsignedAbs(divider);
    MulAtLeast(plain, UnsignedAbs(divider));
  }

  /**
   * The shortest dotted note, divider `i16::MIN`: `unsigned_abs` gives 32768,
   * so no negation overflows and the result is computed like any other.
   */
  lemma ShortestDottedNote(song: Song)
    ensures CalcNoteDuration(song, -0x8000) == (3 * (song.wholeNote / 0x8000)) / 2
    ensures CalcNoteDuration(song, -0x8000) < 3 * 0x1_0000
  {
  }

  /** A dotted note lasts at least as long as the plain note of the same divider. */
  lemma DottedAtLeastPlain(song: Song, k: I16)
    requires 0 < k
    ensures CalcNoteDuration(song, -k) >= CalcNoteDuration(song, k)
  {
    var plain := song.wholeNote / k;
    assert CalcNoteDuration(song, k) == plain;
    if 3 * plain < 2 * U32_LIMIT {
      assert 2 * CalcNoteDuration(song, -k) + 2 > 3 * plain;
    }
  }

  /** A shorter divider never gives a longer plain note. */
  lemma PlainNoteMonotone(song: Song, j: I16, k: I16)
    requires 0 < j <= k
    ensures CalcNoteDuration(song, k) <= CalcNoteDuration(song, j)
  {
    var dj, dk := CalcNoteDuration(song, j), CalcNoteDuration(song, k);
    MulMono(j, k, dk);
    if dk > dj {
      MulMono(dj + 1, dk, j);
    }
  }

  /** Each entry of `s` is above the one before it. */
  predicate StrictlyIncreasing(s: seq<nat>) {
    forall i | 0 < i < |s| :: s[i - 1] < s[i]
  }

  lemma IncreasingConcat(a: seq<nat>, b: seq<nat>)
    requires StrictlyIncreasing(a) && StrictlyIncreasing(b)
    requires a != [] && b != [] ==> a[|a| - 1] < b[0]
    ensures StrictlyIncreasing(a + b)
  {
    forall i | 0 < i < |a + b| ensures (a + b)[i - 1] < (a + b)[i] {
      if i > |a| {
        assert (a + b)[i - 1] == b[i - 1 - |a|];
      }
    }
  }

  /** An increasing table is increasing between any two positions, not only neighbours. */
  lemma {:induction false} IncreasingPairs(s: seq<nat>, i: nat, j: nat)
    requires StrictlyIncreasing(s) && i < j < |s|
    ensures s[i] < s[j]
    decreases j - i
  {
    if i + 1 < j {
      IncreasingPairs(s, i, j - 1);
    }
  }

  /** The note table runs strictly upwards, from B0 = 31 Hz to D#8 = 4978 Hz, and every note is above the rest. */
  lemma NoteTableIncreasing()
    ensures |NoteTable| == 89 && NoteTable[0] == 31 && NoteTable[88] == 4978
    ensures forall i, j :: 0 <= i < j < |NoteTable| ==> Rest < NoteTable[i] < NoteTable[j]
  {
    var s := [31];
    IncreasingConcat(s, Octave1);
    s := s + Octave1;
    IncreasingConcat(s, Octave2);
    s := s + Octave2;
    IncreasingConcat(s, Octave3);
    s := s + Octave3;
    IncreasingConcat(s, Octave4);
    s := s + Octave4;
    IncreasingConcat(s, Octave5);
    s := s + Octave5;
    IncreasingConcat(s, Octave6);
    s := s + Octave6;
    IncreasingConcat(s, Octave7);
    s := s + Octave7;
    IncreasingConcat(s, Octave8);
    s := s + Octave8;
    assert s == NoteTable;
    forall i, j | 0 <= i < j < |NoteTable| ensures Rest < NoteTable[i] < NoteTable[j] {
      IncreasingPairs(NoteTable, i, j);
      if i > 0 {
        IncreasingPairs(NoteTable, 0, i);
      }
    }
  }
}
