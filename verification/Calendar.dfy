/**
 The proleptic Gregorian calendar as people count it: a valid date and its next day. Independent of
 any day number; packages/utils/src/datetime.ts is proved against it.
 */
module Calendar {

  datatype Date = Date(year: int, month: int, day: int)

  predicate IsLeap(year: int) {
    year % 4 == 0 && (year % 100 != 0 || year % 400 == 0)
  }

  function DaysInMonth(year: int, month: int): (n: int)
    ensures 28 <= n <= 31
  {
    if month == 2 then (if IsLeap(year) then 29 else 28)
    else if month == 4 || month == 6 || month == 9 || month == 11 then 30
    else 31
  }

  predicate Valid(d: Date) {
    1 <= d.year && 1 <= d.month <= 12 && 1 <= d.day <= DaysInMonth(d.year, d.month)
  }

  function NextDay(d: Date): Date {
    if d.day < DaysInMonth(d.year, d.month) then d.(day := d.day + 1)
    else if d.month < 12 then Date(d.year, d.month + 1, 1)
    else Date(d.year + 1, 1, 1)
  }

  /** n days later. */
  function Advance(d: Date, n: nat): Date {
    if n == 0 then d else NextDay(Advance(d, n - 1))
  }
}

/**
 `Date.UTC` on calendar fields (sections 21.4.1 and 21.4.3.4 of ECMA-262), in milliseconds.
 */
module EcmaTime {
  import opened Calendar

  const MS_PER_DAY := 86_400_000

  /** DayFromYear: days from 1970-01-01 to January 1st. Dafny's division is the floor for these divisors. */
  function DayFromYear(year: int): int {
    365 * (year - 1970) + (year - 1969) / 4 - (year - 1901) / 100 + (year - 1601) / 400
  }

  /** Days of the year before the (0-based) month starts. */
  function DayWithinYearOf(year: int, month: int): int {
    var leap := if IsLeap(year) then 1 else 0;
    match month
    case 0 => 0
    case 1 => 31
    case 2 => 59 + leap
    case 3 => 90 + leap
    case 4 => 120 + leap
    case 5 => 151 + leap
    case 6 => 181 + leap
    case 7 => 212 + leap
    case 8 => 243 + leap
    case 9 => 273 + leap
    case 10 => 304 + leap
    case _ => 334 + leap
  }

  /** MakeDay, with months outside 0..11 carried into the year. */
  function MakeDay(year: int, month: int, date: int): int {
    var ym := year + month / 12;
    DayFromYear(ym) + DayWithinYearOf(ym, month % 12) + date - 1
  }

  /** MakeFullYear: a year from 0 to 99 means the 1900s. */
  function FullYear(year: int): int {
    if 0 <= year <= 99 then 1900 + year else year
  }

  function DateUTC(year: int, month: int, date: int): int {
    MakeDay(FullYear(year), month, date) * MS_PER_DAY
  }

  /** Math.round of a quotient: the integer nearest to it, halves upward. */
  function RoundQuotient(a: int, b: int): int
    requires b > 0
  {
    (2 * a + b) / (2 * b)
  }
}
