/**
 Instants, in microseconds since the start of year 1, and the calendar fields in which the proleptic
 Gregorian calendar of Python's datetime writes them.
 */
module Calendar {
  datatype Fields = Fields(year: int, month: int, day: int, hour: int, minute: int, second: int, micro: int)

  const LAST_INSTANT: int := 315_537_897_599_999_999
  const MICROS_PER_DAY: int := 86_400_000_000

  predicate IsLeap(year: int) {
    year % 4 == 0 && (year % 100 != 0 || year % 400 == 0)
  }

  function YearLength(year: int): int {
    if IsLeap(year) then 366 else 365
  }

  function MonthLength(year: int, month: int): int {
    if month == 2 then (if IsLeap(year) then 29 else 28)
    else if month == 4 || month == 6 || month == 9 || month == 11 then 30 else 31
  }

  function DaysBeforeYear(year: int): int {
    var y := year - 1;
    y * 365 + y / 4 - y / 100 + y / 400
  }

  function DaysBeforeMonth(year: int, month: int): int
    requires 1 <= month
    decreases month
  {
    if month == 1 then 0 else DaysBeforeMonth(year, month - 1) + MonthLength(year, month - 1)
  }

  predicate ValidFields(f: Fields) {
    && 1 <= f.year <= 9999 && 1 <= f.month <= 12 && 1 <= f.day <= MonthLength(f.year, f.month)
    && 0 <= f.hour < 24 && 0 <= f.minute < 60 && 0 <= f.second < 60 && 0 <= f.micro < 1_000_000
  }

  predicate ValidInstant(t: int) {
    0 <= t <= LAST_INSTANT
  }

  function InstantOf(f: Fields): int
    requires ValidFields(f)
  {
    var day := DaysBeforeYear(f.year) + DaysBeforeMonth(f.year, f.month) + f.day - 1;
    day * MICROS_PER_DAY + ((f.hour * 60 + f.minute) * 60 + f.second) * 1_000_000 + f.micro
  }

  /** The year a day falls in, searching upwards. */
  function YearOf(day: int, from: int): (year: int)
    requires 1 <= from <= 9999 && DaysBeforeYear(from) <= day < DaysBeforeYear(10000)
    ensures from <= year <= 9999 && DaysBeforeYear(year) <= day < DaysBeforeYear(year + 1)
    decreases 9999 - from
  {
    if day < DaysBeforeYear(from + 1) then from else YearOf(day, from + 1)
  }

  function MonthOf(day: int, year: int, from: int): (month: int)
    requires 1 <= from <= 12 && DaysBeforeMonth(year, from) <= day < DaysBeforeMonth(year, 13)
    ensures from <= month <= 12 && DaysBeforeMonth(year, month) <= day < DaysBeforeMonth(year, month + 1)
    decreases 12 - from
  {
    if day < DaysBeforeMonth(year, from + 1) then from else MonthOf(day, year, from + 1)
  }

  function FieldsOf(t: int): (f: Fields)
    requires ValidInstant(t)
    ensures ValidFields(f) && InstantOf(f) == t
  {
    var day, rest := t / MICROS_PER_DAY, t % MICROS_PER_DAY;
    var year := YearOf(day, 1);
    YearHasItsMonths(year);
    NextYear(year);
    var dayOfYear := day - DaysBeforeYear(year);
    var month := MonthOf(dayOfYear, year, 1);
    var seconds := rest / 1_000_000;
    Fields(year, month, dayOfYear - DaysBeforeMonth(year, month) + 1,
           seconds / 3600, seconds % 3600 / 60, seconds % 60, rest % 1_000_000)
  }

  lemma NextYear(year: int)
    ensures DaysBeforeYear(year + 1) == DaysBeforeYear(year) + YearLength(year)
  {
    Step4(year);
    Step100(year);
    Step400(year);
    Multiples(year);
  }

  lemma Step4(n: int)
    ensures n / 4 == (n - 1) / 4 + (if n % 4 == 0 then 1 else 0)
  {
  }

  lemma Step100(n: int)
    ensures n / 100 == (n - 1) / 100 + (if n % 100 == 0 then 1 else 0)
  {
  }

  lemma Step400(n: int)
    ensures n / 400 == (n - 1) / 400 + (if n % 400 == 0 then 1 else 0)
  {
  }

  lemma Multiples(n: int)
    ensures n % 400 == 0 ==> n % 100 == 0
    ensures n % 100 == 0 ==> n % 4 == 0
  {
    if n % 400 == 0 { FourHundreds(n / 400); }
    if n % 100 == 0 { Hundreds(n / 100); }
  }

  lemma FourHundreds(k: int)
    ensures 400 * k % 100 == 0
  {
    assert 400 * k == 100 * (4 * k);
  }

  lemma Hundreds(k: int)
    ensures 100 * k % 4 == 0
  {
    assert 100 * k == 4 * (25 * k);
  }

  lemma YearHasItsMonths(year: int)
    ensures DaysBeforeMonth(year, 13) == YearLength(year)
  {
    assert DaysBeforeMonth(year, 3) == 31 + MonthLength(year, 2);
    assert DaysBeforeMonth(year, 6) == DaysBeforeMonth(year, 3) + 92;
    assert DaysBeforeMonth(year, 9) == DaysBeforeMonth(year, 6) + 92;
    assert DaysBeforeMonth(year, 13) == DaysBeforeMonth(year, 9) + 122;
  }

  /** The start and the end of the calendar, the start of the Unix epoch, and a day that only leap years have. */
  lemma KnownInstants()
    ensures InstantOf(Fields(1, 1, 1, 0, 0, 0, 0)) == 0
    ensures InstantOf(Fields(1970, 1, 1, 0, 0, 0, 0)) == 62_135_596_800_000_000
    ensures IsLeap(2024) && InstantOf(Fields(2024, 2, 29, 0, 0, 0, 0)) == 63_844_761_600_000_000
    ensures InstantOf(Fields(9999, 12, 31, 23, 59, 59, 999_999)) == 315_537_897_599_999_999
  {
    YearHasItsMonths(9999);
    assert DaysBeforeMonth(9999, 12) == YearLength(9999) - 31;
  }
}
