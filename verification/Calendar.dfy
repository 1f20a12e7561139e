/**
 Instants as the calendar writes them: microseconds since the start of year 1, UTC, and the
 year-to-microsecond fields of the same instant.
 */
module Calendar {
  datatype Fields = Fields(year: int, month: int, day: int, hour: int, minute: int, second: int, micro: int)

  const LAST_YEAR := 9999

  predicate Leap(year: int) {
    year % 4 == 0 && (year % 100 != 0 || year % 400 == 0)
  }

  function DaysInMonth(year: int, month: int): (n: int)
    ensures 28 <= n <= 31
  {
    if month == 2 then (if Leap(year) then 29 else 28)
    else if month == 4 || month == 6 || month == 9 || month == 11 then 30
    else 31
  }

  /** Days of `year` before the first of `month`. */
  function DaysBeforeMonth(year: int, month: int): (n: nat)
    requires 1 <= month <= 13
    decreases month
  {
    if month == 1 then 0 else DaysBeforeMonth(year, month - 1) + DaysInMonth(year, month - 1)
  }

  function DaysInYear(year: int): int {
    if Leap(year) then 366 else 365
  }

  /** Days before the first of January of `year`. */
  function DaysBeforeYear(year: int): int {
    var y := year - 1;
    y * 365 + y / 4 - y / 100 + y / 400
  }

  predicate Valid(f: Fields) {
    && 1 <= f.year <= LAST_YEAR && 1 <= f.month <= 12 && 1 <= f.day <= DaysInMonth(f.year, f.month)
    && 0 <= f.hour < 24 && 0 <= f.minute < 60 && 0 <= f.second < 60 && 0 <= f.micro < 1_000_000
  }

  function DayNumber(f: Fields): int
    requires Valid(f)
  {
    DaysBeforeYear(f.year) + DaysBeforeMonth(f.year, f.month) + f.day - 1
  }

  function Instant(f: Fields): int
    requires Valid(f)
  {
    (((DayNumber(f) * 24 + f.hour) * 60 + f.minute) * 60 + f.second) * 1_000_000 + f.micro
  }

  const TICKS_PER_DAY := 24 * 60 * 60 * 1_000_000

  /** The days of the years 1 to 9999. */
  const ALL_DAYS := 3_652_059

  predicate Representable(t: int) {
    0 <= t < ALL_DAYS * TICKS_PER_DAY
  }

  // ----- from an instant to its fields -----

  /** The year `days` falls in, searched down from `candidate`. */
  function YearOf(days: nat, candidate: int): (y: int)
    requires 1 <= candidate && days < DaysBeforeYear(candidate + 1)
    ensures 1 <= y <= candidate && DaysBeforeYear(y) <= days < DaysBeforeYear(y + 1)
    decreases candidate
  {
    if DaysBeforeYear(candidate) <= days then candidate else YearOf(days, candidate - 1)
  }

  function MonthOf(year: int, days: nat, candidate: int): (m: int)
    requires 1 <= candidate <= 12 && days < DaysBeforeMonth(year, candidate + 1)
    ensures 1 <= m <= candidate && DaysBeforeMonth(year, m) <= days < DaysBeforeMonth(year, m + 1)
    decreases candidate
  {
    if DaysBeforeMonth(year, candidate) <= days then candidate else MonthOf(year, days, candidate - 1)
  }

  lemma FourYears(y: int)
    ensures y / 4 == (y - 1) / 4 + (if y % 4 == 0 then 1 else 0)
    ensures y % 100 == 0 ==> y % 4 == 0
  {
  }

  lemma Centuries(y: int)
    ensures y / 100 == (y - 1) / 100 + (if y % 100 == 0 then 1 else 0)
    ensures y % 400 == 0 ==> y % 100 == 0
  {
  }

  lemma FourCenturies(y: int)
    ensures y / 400 == (y - 1) / 400 + (if y % 400 == 0 then 1 else 0)
  {
  }

  lemma YearLength(year: int)
    requires 1 <= year
    ensures DaysBeforeYear(year + 1) == DaysBeforeYear(year) + DaysInYear(year)
  {
    FourYears(year);
    Centuries(year);
    FourCenturies(year);
  }

  lemma YearInMonths(year: int)
    ensures DaysBeforeMonth(year, 13) == DaysInYear(year)
  {
    assert DaysBeforeMonth(year, 4) == 31 + DaysInMonth(year, 2) + 31;
    assert DaysBeforeMonth(year, 7) == DaysBeforeMonth(year, 4) + 91;
    assert DaysBeforeMonth(year, 10) == DaysBeforeMonth(year, 7) + 92;
  }

  /** The date of a day number. */
  function DateOf(days: nat): (d: (int, int, int))
    requires days < ALL_DAYS
    ensures 1 <= d.0 <= LAST_YEAR && 1 <= d.1 <= 12 && 1 <= d.2 <= DaysInMonth(d.0, d.1)
    ensures DaysBeforeYear(d.0) + DaysBeforeMonth(d.0, d.1) + d.2 - 1 == days
  {
    var year := YearOf(days, days / 365 + 1);
    assert year > LAST_YEAR ==> DaysBeforeYear(year) >= ALL_DAYS;
    YearLength(year);
    YearInMonths(year);
    var inYear := days - DaysBeforeYear(year);
    var month := MonthOf(year, inYear, 12);
    (year, month, inYear - DaysBeforeMonth(year, month) + 1)
  }

  function FieldsOf(t: int): (f: Fields)
    requires Representable(t)
    ensures Valid(f) && Instant(f) == t
  {
    var (year, month, day) := DateOf(t / TICKS_PER_DAY);
    var seconds := t % TICKS_PER_DAY / 1_000_000;
    TimeOfDay(t);
    Fields(year, month, day, seconds / 3600, seconds / 60 % 60, seconds % 60, t % TICKS_PER_DAY % 1_000_000)
  }

  lemma TimeOfDay(t: int)
    ensures var seconds := t % TICKS_PER_DAY / 1_000_000;
            && 0 <= seconds < 86400
            && (((t / TICKS_PER_DAY * 24 + seconds / 3600) * 60 + seconds / 60 % 60) * 60 + seconds % 60) * 1_000_000
               + t % TICKS_PER_DAY % 1_000_000 == t
  {
    var ticks := t % TICKS_PER_DAY;
    var seconds := ticks / 1_000_000;
    assert ticks == seconds * 1_000_000 + ticks % 1_000_000;
    Clock(seconds);
    assert t == t / TICKS_PER_DAY * TICKS_PER_DAY + ticks;
  }

  lemma Clock(seconds: int)
    ensures seconds == (seconds / 3600 * 60 + seconds / 60 % 60) * 60 + seconds % 60
  {
    var minutes := seconds / 60;
    assert seconds / 3600 == minutes / 60;
  }

  // ----- and back -----

  lemma {:induction false} YearsGrow(a: int, b: int)
    requires 1 <= a < b
    ensures DaysBeforeYear(a) + DaysInYear(a) <= DaysBeforeYear(b)
    decreases b
  {
    YearLength(b - 1);
    if a < b - 1 {
      YearsGrow(a, b - 1);
    }
  }

  lemma {:induction false} MonthsGrow(year: int, a: int, b: int)
    requires 1 <= a < b <= 13
    ensures DaysBeforeMonth(year, a) + DaysInMonth(year, a) <= DaysBeforeMonth(year, b)
    decreases b
  {
    if a < b - 1 {
      MonthsGrow(year, a, b - 1);
    }
  }

  lemma DayWithinYear(f: Fields)
    requires Valid(f)
    ensures DaysBeforeYear(f.year) <= DayNumber(f) < DaysBeforeYear(f.year) + DaysInYear(f.year)
  {
    YearInMonths(f.year);
    MonthsGrow(f.year, f.month, 13);
  }

  /** Different days have different numbers. */
  lemma SameDay(f: Fields, g: Fields)
    requires Valid(f) && Valid(g) && DayNumber(f) == DayNumber(g)
    ensures f.year == g.year && f.month == g.month && f.day == g.day
  {
    DayWithinYear(f);
    DayWithinYear(g);
    if f.year < g.year { YearsGrow(f.year, g.year); }
    if g.year < f.year { YearsGrow(g.year, f.year); }
    if f.month < g.month { MonthsGrow(f.year, f.month, g.month); }
    if g.month < f.month { MonthsGrow(f.year, g.month, f.month); }
  }

  lemma SplitTime(a: int, b: int, x: int, y: int, base: int)
    requires 0 <= x < base && 0 <= y < base && a * base + x == b * base + y
    ensures a == b && x == y
  {
    assert (a - b) * base == y - x;
    assert a - b >= 1 ==> (a - b) * base >= base;
    assert a - b <= -1 ==> (a - b) * base <= -base;
  }

  /** An instant has one way of being written. */
  lemma InstantsAreWrittenOnce(f: Fields, g: Fields)
    requires Valid(f) && Valid(g) && Instant(f) == Instant(g)
    ensures f == g
  {
    var fm, gm := (DayNumber(f) * 24 + f.hour) * 60 + f.minute, (DayNumber(g) * 24 + g.hour) * 60 + g.minute;
    SplitTime(fm * 60 + f.second, gm * 60 + g.second, f.micro, g.micro, 1_000_000);
    SplitTime(fm, gm, f.second, g.second, 60);
    SplitTime(DayNumber(f) * 24 + f.hour, DayNumber(g) * 24 + g.hour, f.minute, g.minute, 60);
    SplitTime(DayNumber(f), DayNumber(g), f.hour, g.hour, 24);
    SameDay(f, g);
  }

  lemma InstantIsRepresentable(f: Fields)
    requires Valid(f)
    ensures Representable(Instant(f))
  {
    DayWithinYear(f);
    if f.year < LAST_YEAR { YearsGrow(f.year, LAST_YEAR); }
    assert 0 <= DayNumber(f) < ALL_DAYS;
  }

  lemma FieldsOfInstant(f: Fields)
    requires Valid(f)
    ensures Representable(Instant(f)) && FieldsOf(Instant(f)) == f
  {
    InstantIsRepresentable(f);
    InstantsAreWrittenOnce(f, FieldsOf(Instant(f)));
  }

  /** The months by their lengths, January first. */
  lemma MonthsAreAsLong(year: int, month: int)
    requires 1 <= month <= 12
    ensures DaysInMonth(year, month) == [31, if Leap(year) then 29 else 28, 31, 30, 31, 30, 31, 31, 30, 31, 30, 31][month - 1]
    ensures Leap(year) <==> (year % 4 == 0 && !(year % 100 == 0)) || year % 400 == 0
  {
  }

  /** One instant as the proleptic Gregorian calendar counts it: 2024-09-15 is day 739144, the first being 1. */
  lemma OneKnownDay()
    ensures DayNumber(Fields(2024, 9, 15, 0, 0, 0, 0)) + 1 == 739144
  {
    assert DaysBeforeMonth(2024, 3) == 60;
    assert DaysBeforeMonth(2024, 5) == 121;
    assert DaysBeforeMonth(2024, 7) == 182;
    assert DaysBeforeMonth(2024, 9) == 244;
  }
}
