/**
 * The SD card example's clock: the RTC is loaded at start-up with the
 * microseconds from the Unix epoch to the build's `CURRENT_DATETIME`, and
 * every file timestamp the FAT driver asks for is read from it, converted
 * with `chrono` and split into FAT-style fields. The example then writes one
 * line to WRITE.TXT.
 */
module SdTime {
  import opened Ints
  import opened Wrappers
  import opened Civil
  import opened Text

  /** The last and the first year of `chrono`'s `NaiveDate` range. */
  const MaxYear: int := 262142
  const MinYear: int := -262143

  /** Days from 0001-01-01 (day 1 of the common era) to the epoch, as `chrono` counts them. */
  const DaysFromCeToEpoch: nat := 719163

  const I32_MAX: int := 0x7FFF_FFFF

  const MicrosPerSecond: nat := 1_000_000

  /** The date-times `chrono` can represent. */
  predicate InChronoRange(t: DateTime) {
    ValidDateTime(t) && MinYear <= t.date.year <= MaxYear
  }

  /** `chrono::LocalResult`. */
  datatype LocalResult<T> = LocalNone | Single(value: T) | Ambiguous(first: T, second: T)

  /**
   * `Utc.timestamp_millis_opt(ms)`, for the non-negative milliseconds the RTC
   * yields: whole seconds by `div_euclid`, the day and the second of the day
   * from them; no result when the day number overflows `i32` or the date is
   * past `chrono`'s last year. UTC has no ambiguous local times.
   */
  function TimestampMillisOpt(ms: nat): (r: LocalResult<DateTime>)
    ensures !r.Ambiguous?
    ensures r.Single? ==> InChronoRange(r.value) && SecondsFromEpoch(r.value) == ms / 1000
  {
    var secs := ms / 1000;
    var days := secs / SecondsPerDay;
    if days + DaysFromCeToEpoch > I32_MAX || days >= DaysFromEpoch(MaxYear + 1) then LocalNone
    else
      var t := FromSeconds(secs);
      assert t.date.year <= MaxYear by {
        DivMod(secs, SecondsPerDay, ToDays(t.date), t.hour * 3600 + t.minute * 60 + t.second);
        ToDaysInYear(t.date);
        if t.date.year > MaxYear {
          DaysFromEpochMono(MaxYear + 1, t.date.year);
        }
      }
      Single(t)
  }

  /** A timestamp converts exactly when its date falls in `chrono`'s range. */
  lemma TimestampInRange(ms: nat)
    ensures TimestampMillisOpt(ms).Single? <==> FromSeconds(ms / 1000).date.year <= MaxYear
  {
    var secs := ms / 1000;
    var t := FromSeconds(secs);
    var days := secs / SecondsPerDay;
    DivMod(secs, SecondsPerDay, ToDays(t.date), t.hour * 3600 + t.minute * 60 + t.second);
    if t.date.year <= MaxYear {
      ToDaysInYear(t.date);
      DaysFromEpochMono(t.date.year + 1, MaxYear + 1);
      DaysFromEpochBounds(MaxYear + 1);
    }
  }

  /** `us / 1000` fits an `i64`, so the model's cast to `i64` loses nothing. */
  lemma MillisFitI64(us: U64)
    ensures us / 1000 <= I64_MAX
  {
  }

  lemma MillisToSeconds(us: nat)
    ensures us / 1000 / 1000 == us / MicrosPerSecond
  {
    var q, r := us / MicrosPerSecond, us % MicrosPerSecond;
    DivMod(us, 1000, q * 1000 + r / 1000, r % 1000);
    DivMod(q * 1000 + r / 1000, 1000, q, r / 1000);
  }

  /**
   * `SdTimeSource::current_time`: the RTC's microseconds truncated to
   * milliseconds and converted; `None` where it panics, on a timestamp out of
   * range. The result is the date-time of the RTC's whole seconds.
   */
  function CurrentTime(us: U64): (r: Option<DateTime>)
    ensures r.Some? ==> InChronoRange(r.value) && SecondsFromEpoch(r.value) == us / MicrosPerSecond
    ensures r.Some? <==> TimestampMillisOpt(us / 1000).Single?
  {
    MillisToSeconds(us);
    match TimestampMillisOpt(us / 1000)
    case Single(dt) => Some(dt)
    case LocalNone => None
    case Ambiguous(dt1, _) => Some(dt1)
  }

  /** `embedded_sdmmc::Timestamp`. */
  datatype Timestamp = Timestamp(
    yearSince1970: U8,
    zeroIndexedMonth: U8,
    zeroIndexedDay: U8,
    hours: U8,
    minutes: U8,
    seconds: U8)

  /**
   * The field mapping of `get_timestamp`: `unsigned_abs` of the years since
   * 1970, `wrapping_sub(1)` of the `u32` month and day, every field cast
   * with `as u8`.
   */
  function ToTimestamp(now: DateTime): (ts: Timestamp)
    requires ValidDateTime(now)
    ensures var y := now.date.year;
      ts.yearSince1970 == (if y >= EpochYear then y - EpochYear else EpochYear - y) % 256 &&
      ts.zeroIndexedMonth == now.date.month - 1 && ts.zeroIndexedMonth <= 11 &&
      ts.zeroIndexedDay == now.date.day - 1 && ts.zeroIndexedDay <= 30 &&
      ts.hours == now.hour && ts.minutes == now.minute && ts.seconds == now.second
  {
    Timestamp(
      TruncU8(UnsignedAbs(now.date.year - EpochYear)),
      TruncU8((now.date.month - 1) % U32_LIMIT),
      TruncU8((now.date.day - 1) % U32_LIMIT),
      TruncU8(now.hour),
      TruncU8(now.minute),
      TruncU8(now.second))
  }

  /** Two years get the same year field exactly when their distances from 1970 agree modulo 256. */
  lemma YearFieldCollides(a: DateTime, b: DateTime)
    requires ValidDateTime(a) && ValidDateTime(b)
    ensures ToTimestamp(a).yearSince1970 == ToTimestamp(b).yearSince1970 <==>
      (UnsignedAbs(a.date.year - EpochYear) - UnsignedAbs(b.date.year - EpochYear)) % 256 == 0
  {
    var x, y := UnsignedAbs(a.date.year - EpochYear), UnsignedAbs(b.date.year - EpochYear);
    assert ToTimestamp(a).yearSince1970 == x % 256 && ToTimestamp(b).yearSince1970 == y % 256;
    SameLowByte(x, y);
  }

  /** Two naturals agree in their low byte exactly when their difference is a multiple of 256. */
  lemma SameLowByte(x: nat, y: nat)
    ensures x % 256 == y % 256 <==> (x - y) % 256 == 0
  {
    var k := x / 256 - y / 256;
    var d := x % 256 - y % 256;
    assert x - y == k * 256 + d;
    assert (k * 256 + d) % 256 == d % 256;
  }

  /** 1969 and 1971 share the year field 1; 2226 gets 0, like 1970. */
  lemma YearFieldExamples()
    ensures ToTimestamp(DateTime(Date(1969, 1, 1), 0, 0, 0)).yearSince1970 == 1
    ensures ToTimestamp(DateTime(Date(1971, 1, 1), 0, 0, 0)).yearSince1970 == 1
    ensures ToTimestamp(DateTime(Date(2226, 1, 1), 0, 0, 0)).yearSince1970 == 0
  {
  }

  /** `TimeSource::get_timestamp`: `None` where `current_time` panics. */
  function GetTimestamp(us: U64): (r: Option<Timestamp>)
    ensures r.Some? <==> CurrentTime(us).Some?
    ensures r.Some? ==> r.value == ToTimestamp(CurrentTime(us).value)
  {
    match CurrentTime(us)
    case None => None
    case Some(now) => Some(ToTimestamp(now))
  }

  /**
   * What start-up loads into the RTC: `(current_time - epoch)` in
   * microseconds, cast `as u64`, which wraps a negative difference.
   */
  function StartupMicros(t: DateTime): (us: U64)
    requires InChronoRange(t)
    ensures (SecondsFromEpoch(t) * MicrosPerSecond - us) % U64_LIMIT == 0
  {
    WrapU64(SecondsFromEpoch(t) * MicrosPerSecond)
  }

  /** The seconds from the epoch of a representable date-time, bounded by the years it spans. */
  lemma SecondsBounds(t: DateTime)
    requires InChronoRange(t)
    ensures SecondsFromEpoch(t) < DaysFromEpoch(MaxYear + 1) * SecondsPerDay
    ensures DaysFromEpoch(MinYear) * SecondsPerDay <= SecondsFromEpoch(t)
    ensures DaysFromEpoch(MaxYear + 1) <= 366 * (MaxYear + 1 - EpochYear)
    ensures 366 * (MinYear - EpochYear) <= DaysFromEpoch(MinYear)
    ensures t.date.year < EpochYear ==> SecondsFromEpoch(t) < 0
    ensures t.date.year >= EpochYear ==> 0 <= SecondsFromEpoch(t)
  {
    var d := t.date;
    ToDaysInYear(d);
    DaysFromEpochMono(d.year + 1, MaxYear + 1);
    DaysFromEpochMono(MinYear, d.year);
    DaysFromEpochBounds(MaxYear + 1);
    DaysFromEpochBounds(MinYear);
    if d.year < EpochYear {
      DaysFromEpochMono(d.year + 1, EpochYear);
    } else {
      DaysFromEpochMono(EpochYear, d.year);
    }
  }

  /** The microsecond difference never overflows `i64`, so `num_microseconds().unwrap()` cannot panic. */
  lemma MicrosFitI64(t: DateTime)
    requires InChronoRange(t)
    ensures -I64_MAX - 1 <= SecondsFromEpoch(t) * MicrosPerSecond <= I64_MAX
  {
    SecondsBounds(t);
  }

  /**
   * A timestamp taken right after start-up, within the same second,
   * reproduces the build's date-time field by field, as long as it is not
   * before the epoch.
   */
  lemma ImmediateTimestamp(t: DateTime)
    requires InChronoRange(t) && EpochYear <= t.date.year
    ensures GetTimestamp(StartupMicros(t)) ==
      Some(Timestamp((t.date.year - EpochYear) % 256, t.date.month - 1, t.date.day - 1,
                     t.hour, t.minute, t.second))
  {
    var s := SecondsFromEpoch(t);
    SecondsBounds(t);
    var us := s * MicrosPerSecond;
    assert StartupMicros(t) == us;
    DivMod(us, MicrosPerSecond, s, 0);
    FromToSeconds(t);
    var now := CurrentTime(us);
    assert now.Some? by {
      TimestampInRange(us / 1000);
      MillisToSeconds(us);
    }
    SecondsInjective(now.value, t);
  }

  /**
   * A build date-time before the epoch wraps the RTC to more than 300,000
   * years ahead, past `chrono`'s range, so every `get_timestamp` from the
   * loaded value until the 64-bit counter wraps again panics.
   */
  lemma PreEpochPanics(t: DateTime, us: U64)
    requires InChronoRange(t) && t.date.year < EpochYear && StartupMicros(t) <= us
    ensures GetTimestamp(us) == None
  {
    var s := SecondsFromEpoch(t);
    SecondsBounds(t);
    assert StartupMicros(t) == U64_LIMIT + s * MicrosPerSecond;
    MillisToSeconds(us);
    assert us / 1000 / 1000 / SecondsPerDay >= DaysFromEpoch(MaxYear + 1);
  }

  /** The line the example writes. */
  const Line: string := "Rust love me, too!"

  datatype FileEvent =
    | Write(data: seq<Byte>)
    | Flush
    | Log(message: string)
    | Panic

  function LineBytes(): seq<Byte> {
    assert IsAscii(Line);
    AsciiBytes(Line)
  }

  /**
   * Writing the line: on success the file is flushed (a flush error panics)
   * and "Written Data" logged; on a write error only "Not wrote" is logged.
   * The write comes first, the flush second when there is one, and the
   * outcome last.
   */
  function SaveLine(writeOk: bool, flushOk: bool): (ev: seq<FileEvent>)
    ensures |ev| == (if writeOk then 3 else 2) && ev[0] == Write(LineBytes())
    ensures writeOk ==> ev[1] == Flush
    ensures ev[|ev| - 1] == if !writeOk then Log("Not wrote") else if flushOk then Log("Written Data") else Panic
  {
    [Write(LineBytes())] +
    if writeOk then [Flush] + (if flushOk then [Log("Written Data")] else [Panic])
    else [Log("Not wrote")]
  }

  /**
   * The file is flushed exactly when the write succeeded, "Written Data"
   * appears only after a successful write and flush, and a failed write
   * neither flushes nor panics.
   */
  lemma SaveOutcome(writeOk: bool, flushOk: bool)
    ensures var ev := SaveLine(writeOk, flushOk);
      ev[0] == Write(LineBytes()) &&
      (Flush in ev <==> writeOk) &&
      (Log("Written Data") in ev <==> writeOk && flushOk) &&
      (Log("Not wrote") in ev <==> !writeOk) &&
      (Panic in ev <==> writeOk && !flushOk)
    ensures writeOk && flushOk ==> SaveLine(writeOk, flushOk) == [Write(LineBytes()), Flush, Log("Written Data")]
  {
    var ev := SaveLine(writeOk, flushOk);
    if writeOk {
      assert ev[1] == Flush;
      assert Log("Written Data") in ev <==> ev[2] == Log("Written Data");
    } else {
      assert ev == [Write(LineBytes()), Log("Not wrote")];
    }
  }

  lemma LineBytesValue()
    ensures |LineBytes()| == 18
    ensures LineBytes()[..4] == [0x52, 0x75, 0x73, 0x74]
  {
  }
}
