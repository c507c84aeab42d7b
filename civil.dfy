/**
 * The proleptic Gregorian calendar that `chrono`'s naive dates and times
 * follow, counted from 1970-01-01T00:00:00, the Unix epoch. Days before the
 * epoch are negative. Leap seconds are not part of it.
 */
module Civil {

  datatype Date = Date(year: int, month: int, day: int)

  datatype DateTime = DateTime(date: Date, hour: int, minute: int, second: int)

  const EpochYear: int := 1970
  const SecondsPerDay: nat := 86400

  predicate IsLeap(y: int) {
    y % 4 == 0 && (y % 100 != 0 || y % 400 == 0)
  }

  function DaysInYear(y: int): nat {
    if IsLeap(y) then 366 else 365
  }

  function DaysInMonth(y: int, m: int): nat
    requires 1 <= m <= 12
  {
    if m == 2 then (if IsLeap(y) then 29 else 28)
    else if m == 4 || m == 6 || m == 9 || m == 11 then 30
    else 31
  }

  /** The days of the year before the first of month `m`; month 13 stands for the year's end. */
  function DaysBeforeMonth(y: int, m: int): (n: nat)
    requires 1 <= m <= 13
    ensures m == 1 ==> n == 0
    ensures m == 13 ==> n == DaysInYear(y)
  {
    [0, 31, 59, 90, 120, 151, 181, 212, 243, 273, 304, 334, 365][m - 1] +
    (if m > 2 && IsLeap(y) then 1 else 0)
  }

  /** Each month adds its own days to the count. */
  lemma MonthStep(y: int, m: int)
    requires 1 <= m <= 12
    ensures DaysBeforeMonth(y, m + 1) == DaysBeforeMonth(y, m) + DaysInMonth(y, m)
  {
  }

  predicate ValidDate(d: Date) {
    1 <= d.month <= 12 && 1 <= d.day <= DaysInMonth(d.year, d.month)
  }

  predicate ValidDateTime(t: DateTime) {
    ValidDate(t.date) && 0 <= t.hour < 24 && 0 <= t.minute < 60 && 0 <= t.second < 60
  }

  /** The day number of January 1 of year `y`, 0 for 1970. */
  function DaysFromEpoch(y: int): int
    decreases if y >= EpochYear then y - EpochYear else EpochYear - y
  {
    if y == EpochYear then 0
    else if y > EpochYear then DaysFromEpoch(y - 1) + DaysInYear(y - 1)
    else DaysFromEpoch(y + 1) - DaysInYear(y)
  }

  /** Consecutive years, on either side of the epoch, are one year's days apart. */
  lemma NextYear(y: int)
    ensures DaysFromEpoch(y + 1) == DaysFromEpoch(y) + DaysInYear(y)
  {
  }

  /** Years after 1970 have from 365 to 366 days each, so the day numbers grow accordingly. */
  lemma {:induction false} DaysFromEpochBounds(y: int)
    ensures y >= EpochYear ==> 365 * (y - EpochYear) <= DaysFromEpoch(y) <= 366 * (y - EpochYear)
    ensures y < EpochYear ==> 366 * (y - EpochYear) <= DaysFromEpoch(y) <= 365 * (y - EpochYear)
    decreases if y >= EpochYear then y - EpochYear else EpochYear - y
  {
    if y > EpochYear {
      DaysFromEpochBounds(y - 1);
    } else if y < EpochYear {
      DaysFromEpochBounds(y + 1);
    }
  }

  lemma {:induction false} DaysFromEpochMono(a: int, b: int)
    requires a <= b
    ensures DaysFromEpoch(a) <= DaysFromEpoch(b)
    decreases b - a
  {
    if a < b {
      DaysFromEpochMono(a, b - 1);
      NextYear(b - 1);
    }
  }

  /** The day number of a date. */
  function ToDays(d: Date): int
    requires ValidDate(d)
  {
    DaysFromEpoch(d.year) + DaysBeforeMonth(d.year, d.month) + d.day - 1
  }

  /** A date's day number lies within its year's. */
  lemma ToDaysInYear(d: Date)
    requires ValidDate(d)
    ensures DaysFromEpoch(d.year) <= ToDays(d) < DaysFromEpoch(d.year + 1)
  {
    NextYear(d.year);
    MonthStep(d.year, d.month);
    assert DaysBeforeMonth(d.year, d.month + 1) <= DaysBeforeMonth(d.year, 13) by {
      MonthsBefore(d.year, d.month + 1, 13);
    }
  }

  lemma {:induction false} MonthsBefore(y: int, a: int, b: int)
    requires 1 <= a <= b <= 13
    ensures DaysBeforeMonth(y, a) <= DaysBeforeMonth(y, b)
    decreases b - a
  {
    if a < b {
      MonthsBefore(y, a, b - 1);
      MonthStep(y, b - 1);
    }
  }

  /** The date `z` days into year `y`, counting months from `m`. */
  function MonthFrom(y: int, m: int, z: nat): (d: Date)
    requires 1 <= m <= 12
    requires DaysBeforeMonth(y, m) + z < DaysInYear(y)
    ensures ValidDate(d) && d.year == y && m <= d.month
    ensures DaysBeforeMonth(y, d.month) + d.day - 1 == DaysBeforeMonth(y, m) + z
    decreases 12 - m
  {
    MonthStep(y, m);
    if z < DaysInMonth(y, m) then Date(y, m, z + 1)
    else MonthFrom(y, m + 1, z - DaysInMonth(y, m))
  }

  /** The date `z` days after January 1 of year `y`. */
  function DateFrom(y: int, z: nat): (d: Date)
    ensures ValidDate(d) && y <= d.year
    ensures ToDays(d) == DaysFromEpoch(y) + z
    decreases z
  {
    NextYear(y);
    if z >= DaysInYear(y) then DateFrom(y + 1, z - DaysInYear(y))
    else MonthFrom(y, 1, z)
  }

  /** The date of day number `z`, for days from the epoch on. */
  function FromDays(z: nat): (d: Date)
    ensures ValidDate(d) && EpochYear <= d.year
    ensures ToDays(d) == z
  {
    DateFrom(EpochYear, z)
  }

  /** Day numbers from the epoch on name their dates one to one: `FromDays` undoes `ToDays`. */
  lemma FromToDays(d: Date)
    requires ValidDate(d) && EpochYear <= d.year
    ensures ToDays(d) >= 0
    ensures FromDays(ToDays(d)) == d
  {
    ToDaysInYear(d);
    DaysFromEpochMono(EpochYear, d.year);
    DateFromDate(EpochYear, d);
  }

  lemma {:induction false} DateFromDate(y: int, d: Date)
    requires ValidDate(d) && y <= d.year
    ensures DaysFromEpoch(y) <= ToDays(d)
    ensures DateFrom(y, ToDays(d) - DaysFromEpoch(y)) == d
    decreases d.year - y
  {
    if y < d.year {
      DateFromDate(y + 1, d);
      DateFromEarlierYear(y, d);
    } else {
      DateFromSameYear(d);
    }
  }

  /** Counting from a year before the date's first skips that whole year. */
  lemma DateFromEarlierYear(y: int, d: Date)
    requires ValidDate(d) && y < d.year
    requires DaysFromEpoch(y + 1) <= ToDays(d)
    requires DateFrom(y + 1, ToDays(d) - DaysFromEpoch(y + 1)) == d
    ensures DaysFromEpoch(y) <= ToDays(d)
    ensures DateFrom(y, ToDays(d) - DaysFromEpoch(y)) == d
  {
    NextYear(y);
    var z := ToDays(d) - DaysFromEpoch(y);
    assert z >= DaysInYear(y);
    assert z - DaysInYear(y) == ToDays(d) - DaysFromEpoch(y + 1);
  }

  lemma DateFromSameYear(d: Date)
    requires ValidDate(d)
    ensures DaysFromEpoch(d.year) <= ToDays(d)
    ensures DateFrom(d.year, ToDays(d) - DaysFromEpoch(d.year)) == d
  {
    var z := ToDays(d) - DaysFromEpoch(d.year);
    ToDaysInYear(d);
    NextYear(d.year);
    MonthFromDate(1, d);
    assert z < DaysInYear(d.year);
    assert DateFrom(d.year, z) == MonthFrom(d.year, 1, z);
  }

  lemma {:induction false} MonthFromDate(m: int, d: Date)
    requires ValidDate(d) && 1 <= m <= d.month
    ensures DaysBeforeMonth(d.year, m) <= DaysBeforeMonth(d.year, d.month)
    ensures DaysBeforeMonth(d.year, d.month) + d.day - 1 < DaysInYear(d.year)
    ensures MonthFrom(d.year, m, DaysBeforeMonth(d.year, d.month) - DaysBeforeMonth(d.year, m) + d.day - 1) == d
    decreases d.month - m
  {
    MonthsBefore(d.year, m, d.month);
    MonthsBefore(d.year, d.month + 1, 13);
    MonthStep(d.year, m);
    MonthStep(d.year, d.month);
    if m < d.month {
      MonthsBefore(d.year, m + 1, d.month);
      MonthFromDate(m + 1, d);
    }
  }

  /** Seconds since the epoch of a date and time. */
  function SecondsFromEpoch(t: DateTime): int
    requires ValidDateTime(t)
  {
    ToDays(t.date) * SecondsPerDay + t.hour * 3600 + t.minute * 60 + t.second
  }

  /**
   * The date and time `s` seconds after the epoch: the day from `s / 86400`,
   * then hour, minute and second of the seconds since midnight.
   */
  function FromSeconds(s: nat): (t: DateTime)
    ensures ValidDateTime(t) && EpochYear <= t.date.year
    ensures SecondsFromEpoch(t) == s
  {
    var sod := s % SecondsPerDay;
    var t := DateTime(FromDays(s / SecondsPerDay), sod / 3600, sod / 60 % 60, sod % 60);
    SecondsOfDay(sod);
    t
  }

  lemma SecondsOfDay(sod: nat)
    requires sod < SecondsPerDay
    ensures 0 <= sod / 3600 < 24 && 0 <= sod / 60 % 60 < 60
    ensures sod / 3600 * 3600 + sod / 60 % 60 * 60 + sod % 60 == sod
  {
    var h, r := sod / 3600, sod % 3600;
    assert sod / 60 == h * 60 + r / 60;
    assert sod % 60 == r % 60;
  }

  /** `FromSeconds` undoes `SecondsFromEpoch` for every date and time from the epoch on. */
  lemma FromToSeconds(t: DateTime)
    requires ValidDateTime(t) && EpochYear <= t.date.year
    ensures SecondsFromEpoch(t) >= 0
    ensures FromSeconds(SecondsFromEpoch(t)) == t
  {
    var days := ToDays(t.date);
    var sod := t.hour * 3600 + t.minute * 60 + t.second;
    var s := days * SecondsPerDay + sod;
    ToDaysInYear(t.date);
    DaysFromEpochMono(EpochYear, t.date.year);
    DivMod(s, SecondsPerDay, days, sod);
    DivMod(sod, 3600, t.hour, t.minute * 60 + t.second);
    DivMod(sod, 60, t.hour * 60 + t.minute, t.second);
    DivMod(t.hour * 60 + t.minute, 60, t.hour, t.minute);
    FromToDays(t.date);
  }

  /** Division with remainder is unique. */
  lemma DivMod(a: int, b: int, q: int, r: int)
    requires 0 < b && 0 <= r < b && a == q * b + r
    ensures a / b == q && a % b == r
  {
    var q', r' := a / b, a % b;
    assert (q - q') * b == r' - r;
    if q > q' {
      MulAtLeastOne(q - q', b);
    } else if q < q' {
      MulAtLeastOne(q' - q, b);
    }
  }

  lemma MulAtLeastOne(k: int, b: int)
    requires k >= 1 && b > 0
    ensures k * b >= b
  {
    assert k * b == (k - 1) * b + b;
  }

  /** Every second of the model's range is a distinct date and time. */
  lemma SecondsInjective(a: DateTime, b: DateTime)
    requires ValidDateTime(a) && EpochYear <= a.date.year
    requires ValidDateTime(b) && EpochYear <= b.date.year
    requires SecondsFromEpoch(a) == SecondsFromEpoch(b)
    ensures a == b
  {
    FromToSeconds(a);
    FromToSeconds(b);
  }
}
