/**
 packages/utils/src/datetime.ts: calendar days between two local date keys, and the phrase they decide.
 */
module DateTime {
  import opened Prelude
  import opened Text
  import opened Calendar
  import opened EcmaTime

  // ----- date keys -----

  predicate AllDigits(s: string) {
    s != "" && forall i :: 0 <= i < |s| ==> IsDigit(s[i])
  }

  function Digits(n: nat): (s: string)
    ensures AllDigits(s)
  {
    if n < 10 then ['0' + n as char] else Digits(n / 10) + ['0' + (n % 10) as char]
  }

  function TwoDigits(n: nat): string {
    if n < 10 then "0" + Digits(n) else Digits(n)
  }

  /** What Intl's en-CA format writes for a local date: year, two-digit month, two-digit day. */
  function DateKey(d: Date): string
    requires Valid(d)
  {
    Digits(d.year) + "-" + TwoDigits(d.month) + "-" + TwoDigits(d.day)
  }

  /** Number(part) on a run of decimal digits; anything else is NaN here. */
  function ToNumber(s: string): Option<nat> {
    if AllDigits(s) then Some(DigitsValue(s)) else None
  }

  function DigitsValue(s: string): nat
    requires AllDigits(s)
  {
    var last := (s[|s| - 1] - '0') as nat;
    if |s| == 1 then last else DigitsValue(s[..|s| - 1]) * 10 + last
  }

  function ParseKey(key: string): Option<(int, int, int)> {
    var parts := Split(key, '-');
    if |parts| < 3 then None
    else
      match (ToNumber(parts[0]), ToNumber(parts[1]), ToNumber(parts[2]))
      case (Some(y), Some(m), Some(d)) => Some((y, m, d))
      case _ => None
  }

  function DaysBetweenFields(fy: int, fm: int, fd: int, ty: int, tm: int, td: int): int {
    RoundQuotient(DateUTC(ty, tm - 1, td) - DateUTC(fy, fm - 1, fd), MS_PER_DAY)
  }

  /** daysBetweenLocalDateKeys; None stands for NaN. */
  function DaysBetweenKeys(from: string, to: string): Option<int> {
    match (ParseKey(from), ParseKey(to))
    case (Some((fy, fm, fd)), Some((ty, tm, td))) =>
      Some(DaysBetweenFields(fy, fm, fd, ty, tm, td))
    case _ => None
  }

  lemma {:induction false} DigitsRoundTrip(n: nat)
    ensures DigitsValue(Digits(n)) == n
  {
    if n >= 10 {
      DigitsRoundTrip(n / 10);
      var s := Digits(n);
      assert s[..|s| - 1] == Digits(n / 10);
    }
  }

  lemma TwoDigitsRoundTrip(n: nat)
    ensures AllDigits(TwoDigits(n)) && DigitsValue(TwoDigits(n)) == n
  {
    DigitsRoundTrip(n);
    if n < 10 {
      assert TwoDigits(n)[..1] == "0";
    }
  }

  lemma {:induction false} SplitFirst(a: string, rest: string)
    requires AllDigits(a)
    ensures Split(a + "-" + rest, '-') == [a] + Split(rest, '-')
    decreases |a|
  {
    var s := a + "-" + rest;
    if |a| == 1 {
      assert s[1..] == "-" + rest;
      assert ("-" + rest)[1..] == rest;
    } else {
      SplitFirst(a[1..], rest);
      assert s[1..] == a[1..] + "-" + rest;
    }
    assert a == [a[0]] + a[1..];
  }

  lemma {:induction false} SplitLast(a: string)
    requires AllDigits(a)
    ensures Split(a, '-') == [a]
    decreases |a|
  {
    if |a| == 1 {
      assert a[1..] == "";
    } else {
      SplitLast(a[1..]);
    }
    assert a == [a[0]] + a[1..];
  }

  /** Splitting and reading a date key gives back its year, month and day. */
  lemma KeyRoundTrip(d: Date)
    requires Valid(d)
    ensures ParseKey(DateKey(d)) == Some((d.year, d.month, d.day))
  {
    var y, m, dd := Digits(d.year), TwoDigits(d.month), TwoDigits(d.day);
    DigitsRoundTrip(d.year);
    TwoDigitsRoundTrip(d.month);
    TwoDigitsRoundTrip(d.day);
    SplitFirst(y, m + "-" + dd);
    SplitFirst(m, dd);
    SplitLast(dd);
    assert DateKey(d) == y + "-" + (m + "-" + dd);
    assert Split(DateKey(d), '-') == [y, m, dd];
  }

  // ----- the day number counts next days -----

  function DayNumber(d: Date): int {
    DayFromYear(d.year) + DayWithinYearOf(d.year, d.month - 1) + d.day - 1
  }

  lemma QuarterStep(y: int)
    ensures (y - 1968) / 4 == (y - 1969) / 4 + if y % 4 == 0 then 1 else 0
  {
  }

  lemma CenturyStep(y: int)
    ensures (y - 1900) / 100 == (y - 1901) / 100 + if y % 100 == 0 then 1 else 0
  {
  }

  lemma FourthCenturyStep(y: int)
    ensures (y - 1600) / 400 == (y - 1601) / 400 + if y % 400 == 0 then 1 else 0
  {
  }

  lemma FourthCenturiesAreCenturies(y: int)
    requires y % 400 == 0
    ensures y % 100 == 0
  {
    var k := y / 400;
    assert y == 100 * (4 * k);
  }

  lemma CenturiesAreQuarters(y: int)
    requires y % 100 == 0
    ensures y % 4 == 0
  {
    var k := y / 100;
    assert y == 4 * (25 * k);
  }

  lemma YearLength(y: int)
    ensures DayFromYear(y + 1) == DayFromYear(y) + if IsLeap(y) then 366 else 365
  {
    QuarterStep(y);
    CenturyStep(y);
    FourthCenturyStep(y);
    if y % 400 == 0 {
      FourthCenturiesAreCenturies(y);
    }
    if y % 100 == 0 {
      CenturiesAreQuarters(y);
    }
  }

  lemma NextDayCountsOne(d: Date)
    requires Valid(d)
    ensures Valid(NextDay(d)) && DayNumber(NextDay(d)) == DayNumber(d) + 1
  {
    YearLength(d.year);
  }

  lemma {:induction false} AdvanceCounts(d: Date, n: nat)
    requires Valid(d)
    ensures Valid(Advance(d, n)) && DayNumber(Advance(d, n)) == DayNumber(d) + n
  {
    if n > 0 {
      AdvanceCounts(d, n - 1);
      NextDayCountsOne(Advance(d, n - 1));
    }
  }

  lemma {:induction false} YearsGrow(y: int, z: int)
    requires y < z
    ensures DayFromYear(y + 1) <= DayFromYear(z)
    decreases z - y
  {
    if y + 1 < z {
      YearLength(y + 1);
      YearsGrow(y + 1, z);
    }
  }

  lemma DayWithinYear(d: Date)
    requires Valid(d)
    ensures 0 <= DayWithinYearOf(d.year, d.month - 1) + d.day - 1 < if IsLeap(d.year) then 366 else 365
  {
  }

  /** A later year starts after every day of an earlier one. */
  lemma EarlierYearEarlierDay(a: Date, b: Date)
    requires Valid(a) && Valid(b) && a.year < b.year
    ensures DayNumber(a) < DayNumber(b)
  {
    DayWithinYear(a);
    DayWithinYear(b);
    YearLength(a.year);
    YearsGrow(a.year, b.year);
  }

  lemma MonthsGrow(year: int, month: int, later: int)
    requires 1 <= month < later <= 12
    ensures DayWithinYearOf(year, month - 1) + DaysInMonth(year, month) <= DayWithinYearOf(year, later - 1)
    decreases later - month
  {
    if month + 1 < later {
      MonthsGrow(year, month + 1, later);
    }
  }

  lemma DayNumberInjective(a: Date, b: Date)
    requires Valid(a) && Valid(b) && DayNumber(a) == DayNumber(b)
    ensures a == b
  {
    if a.year < b.year {
      EarlierYearEarlierDay(a, b);
    } else if b.year < a.year {
      EarlierYearEarlierDay(b, a);
    } else if a.month < b.month {
      MonthsGrow(a.year, a.month, b.month);
    } else if b.month < a.month {
      MonthsGrow(a.year, b.month, a.month);
    }
  }

  /** The difference of day numbers is n exactly when b is the n-th day after a. */
  lemma DayNumberDifference(a: Date, b: Date, n: nat)
    requires Valid(a) && Valid(b)
    ensures DayNumber(b) - DayNumber(a) == n <==> Advance(a, n) == b
  {
    AdvanceCounts(a, n);
    if DayNumber(b) - DayNumber(a) == n {
      DayNumberInjective(Advance(a, n), b);
    }
  }

  // ----- daysBetweenLocalDateKeys -----

  /** What Date.UTC adds to a date of the first century by reading its year in the 1900s. */
  const CENTURY_SHIFT := 693_960

  /** The day Date.UTC takes a local date for. */
  function UtcDay(d: Date): int {
    DayNumber(d) + if d.year < 100 then CENTURY_SHIFT else 0
  }

  lemma CenturyShift(y: int)
    requires 1 <= y < 100
    ensures DayFromYear(y + 1900) == DayFromYear(y) + CENTURY_SHIFT && IsLeap(y + 1900) == IsLeap(y)
  {
    assert (y + 1900 - 1969) / 4 - (y - 1969) / 4 == 475;
    assert (y + 1900 - 1901) / 100 - (y - 1901) / 100 == 19;
    assert (y + 1900 - 1601) / 400 - (y - 1601) / 400 == 4;
  }

  lemma DateUTCOfDate(d: Date)
    requires Valid(d)
    ensures DateUTC(d.year, d.month - 1, d.day) == UtcDay(d) * MS_PER_DAY
  {
    assert (d.month - 1) / 12 == 0 && (d.month - 1) % 12 == d.month - 1;
    if d.year < 100 {
      CenturyShift(d.year);
    }
  }

  /** Rounding is exact: UTC midnights are whole days apart. */
  lemma RoundIsExact(x: int, y: int, from: int, to: int)
    requires from == x * MS_PER_DAY && to == y * MS_PER_DAY
    ensures RoundQuotient(to - from, MS_PER_DAY) == y - x
  {
  }

  lemma KeysToFields(a: Date, b: Date)
    requires Valid(a) && Valid(b)
    ensures DaysBetweenKeys(DateKey(a), DateKey(b)) == Some(DaysBetweenFields(a.year, a.month, a.day, b.year, b.month,
        b.day))
  {
    KeyRoundTrip(a);
    KeyRoundTrip(b);
  }

  lemma UtcMidnight(d: Date) returns (day: int)
    requires Valid(d)
    ensures day == UtcDay(d) && DateUTC(d.year, d.month - 1, d.day) == day * MS_PER_DAY
  {
    DateUTCOfDate(d);
    day := UtcDay(d);
  }

  lemma FieldsCountDays(a: Date, b: Date, x: int, y: int)
    requires Valid(a) && Valid(b)
    requires DateUTC(a.year, a.month - 1, a.day) == x * MS_PER_DAY
        && DateUTC(b.year, b.month - 1, b.day) == y * MS_PER_DAY
    ensures DaysBetweenFields(a.year, a.month, a.day, b.year, b.month, b.day) == y - x
  {
    RoundIsExact(x, y, DateUTC(a.year, a.month - 1, a.day), DateUTC(b.year, b.month - 1, b.day));
  }

  lemma FieldsAreUtcDays(a: Date, b: Date)
    requires Valid(a) && Valid(b)
    ensures DaysBetweenFields(a.year, a.month, a.day, b.year, b.month, b.day) == UtcDay(b) - UtcDay(a)
  {
    var x := UtcMidnight(a);
    var y := UtcMidnight(b);
    FieldsCountDays(a, b, x, y);
  }

  lemma KeysCount(a: Date, b: Date, n: int)
    requires Valid(a) && Valid(b)
    requires DaysBetweenFields(a.year, a.month, a.day, b.year, b.month, b.day) == n
    ensures DaysBetweenKeys(DateKey(a), DateKey(b)) == Some(n)
  {
    KeysToFields(a, b);
  }

  /** On every pair of local dates: the difference of the days Date.UTC takes them for. */
  lemma DaysBetweenDates(a: Date, b: Date)
    requires Valid(a) && Valid(b)
    ensures DaysBetweenKeys(DateKey(a), DateKey(b)) == Some(UtcDay(b) - UtcDay(a))
  {
    var n := UtcDay(b) - UtcDay(a);
    assert DaysBetweenFields(a.year, a.month, a.day, b.year, b.month, b.day) == n by {
      FieldsAreUtcDays(a, b);
    }
    KeysCount(a, b, n);
  }

  /** Signed calendar days: n steps of NextDay lead from a to b, or -n from b to a. */
  ghost predicate DaysApart(a: Date, b: Date, n: int) {
    if n >= 0 then Advance(a, n) == b else Advance(b, -n) == a
  }

  lemma ApartExactly(a: Date, b: Date, n: int)
    requires Valid(a) && Valid(b)
    ensures DayNumber(b) - DayNumber(a) == n <==> DaysApart(a, b, n)
  {
    if n >= 0 {
      DayNumberDifference(a, b, n);
    } else {
      DayNumberDifference(b, a, -n);
    }
  }

  lemma UtcGap(a: Date, b: Date)
    ensures UtcDay(b) - UtcDay(a) == DayNumber(b) - DayNumber(a) <==> (a.year < 100 <==> b.year < 100)
  {
  }

  /** The function counts calendar days, month ends and leap years included, if and only if both years
      are below 100 or neither is; and then no other count fits. */
  lemma CountsCalendarDays(a: Date, b: Date, n: int)
    requires Valid(a) && Valid(b)
    ensures (a.year < 100 <==> b.year < 100) ==>
              (DaysBetweenKeys(DateKey(a), DateKey(b)) == Some(n) <==> DaysApart(a, b, n))
    ensures !(a.year < 100 <==> b.year < 100) ==>
              (DaysBetweenKeys(DateKey(a), DateKey(b)) == Some(n) ==> !DaysApart(a, b, n))
  {
    var gap, days := UtcDay(b) - UtcDay(a), DayNumber(b) - DayNumber(a);
    assert DaysBetweenKeys(DateKey(a), DateKey(b)) == Some(gap) by {
      DaysBetweenDates(a, b);
    }
    assert days == n <==> DaysApart(a, b, n) by {
      ApartExactly(a, b, n);
    }
    assert gap == days <==> (a.year < 100 <==> b.year < 100) by {
      UtcGap(a, b);
    }
  }

  /** Antisymmetric and additive, on the years it is right for. */
  lemma DaysBetweenAdds(a: Date, b: Date, c: Date)
    requires Valid(a) && Valid(b) && Valid(c)
    ensures var ab, ba := DaysBetweenKeys(DateKey(a), DateKey(b)), DaysBetweenKeys(DateKey(b), DateKey(a));
            var bc, ac := DaysBetweenKeys(DateKey(b), DateKey(c)), DaysBetweenKeys(DateKey(a), DateKey(c));
            ab.Some? && ba.Some? && bc.Some? && ac.Some? && ab.value == -ba.value && ab.value + bc.value == ac.value
  {
    DaysBetweenDates(a, b);
    DaysBetweenDates(b, a);
    DaysBetweenDates(b, c);
    DaysBetweenDates(a, c);
  }

  // ----- describeAvailability -----

  datatype Status = Open | Closed | Paused

  datatype Availability = Availability(status: Status, reason: string, nextOpenAt: Option<Date>)

  /** The phrase, before its words: "Open", a reason, "Opens at t", "Opens tomorrow at t", "Opens d at t". */
  datatype Phrase = SaysOpen | SaysReason(text: string) | OpensAt | OpensTomorrow | OpensOnDate

  /** `reason || fallback`. */
  function OrElse(reason: string, fallback: string): string {
    if reason == "" then fallback else reason
  }

  /** `today` and nextOpenAt are the local dates Intl gives for the two instants in the restaurant's
      timezone; an absent reason or timezone is the empty string, as falsy as undefined. */
  function DescribeAvailability(availability: Option<Availability>, timezone: string, today: Date): Phrase
    requires Valid(today)
    requires availability.Some? && availability.value.nextOpenAt.Some? ==> Valid(availability.value.nextOpenAt.value)
  {
    if availability.None? || availability.value.status.Open? then SaysOpen
    else if availability.value.status.Paused? then SaysReason(OrElse(availability.value.reason, "Temporarily paused"))
    else if availability.value.nextOpenAt.None? then SaysReason(OrElse(availability.value.reason, "Closed"))
    else if timezone == "" then OpensAt
    else
      match DaysBetweenKeys(DateKey(today), DateKey(availability.value.nextOpenAt.value))
      case Some(n) => if n <= 0 then OpensAt else if n == 1 then OpensTomorrow else OpensOnDate
      case None => OpensOnDate
  }

  /** Day `a` is day `b` or some day before it. */
  ghost predicate OnOrBefore(a: Date, b: Date) {
    exists n: nat :: Advance(a, n) == b
  }

  lemma OnOrBeforeExactly(a: Date, b: Date)
    requires Valid(a) && Valid(b)
    ensures OnOrBefore(a, b) <==> DayNumber(a) <= DayNumber(b)
  {
    if DayNumber(a) <= DayNumber(b) {
      DayNumberDifference(a, b, DayNumber(b) - DayNumber(a));
      assert Advance(a, DayNumber(b) - DayNumber(a)) == b;
    }
    forall n: nat | Advance(a, n) == b ensures DayNumber(a) <= DayNumber(b) {
      AdvanceCounts(a, n);
    }
  }

  lemma NextDayExactly(a: Date, b: Date)
    requires Valid(a) && Valid(b)
    ensures b == NextDay(a) <==> DayNumber(b) - DayNumber(a) == 1
  {
    DayNumberDifference(a, b, 1);
    assert Advance(a, 1) == NextDay(Advance(a, 0));
  }

  /** A closed restaurant is said to open tomorrow exactly when its opening day is the next one, plainly "at"
      exactly when that day is today or past, and on a date otherwise. */
  lemma TomorrowIsTheNextDay(reason: string, timezone: string, today: Date, opening: Date)
    requires Valid(today) && Valid(opening) && 100 <= today.year && 100 <= opening.year && timezone != ""
    ensures var phrase := DescribeAvailability(Some(Availability(Closed, reason, Some(opening))), timezone, today);
            && (phrase == OpensTomorrow <==> opening == NextDay(today))
            && (phrase == OpensAt <==> OnOrBefore(opening, today))
            && (phrase == OpensOnDate <==> !OnOrBefore(opening, today) && opening != NextDay(today))
  {
    var days := DayNumber(opening) - DayNumber(today);
    assert DaysBetweenKeys(DateKey(today), DateKey(opening)) == Some(days) by {
      DaysBetweenDates(today, opening);
      UtcGap(today, opening);
    }
    assert opening == NextDay(today) <==> days == 1 by {
      NextDayExactly(today, opening);
    }
    assert OnOrBefore(opening, today) <==> days <= 0 by {
      OnOrBeforeExactly(opening, today);
    }
  }

  /** The phrase on every availability, timezone and day: "Open" exactly without an availability or when open; a
      reason exactly when paused, or closed with no next opening, with the fallback of that status where none
      is given; "Opens at" for a known opening without a timezone. */
  lemma PhraseExactly(availability: Option<Availability>, timezone: string, today: Date)
    requires Valid(today)
    requires availability.Some? && availability.value.nextOpenAt.Some? ==> Valid(availability.value.nextOpenAt.value)
    ensures var phrase := DescribeAvailability(availability, timezone, today);
            && (phrase.SaysOpen? <==> availability.None? || availability.value.status == Open)
            && (phrase.SaysReason? <==>
                  availability.Some? && (availability.value.status == Paused
                                         || (availability.value.status == Closed
                                             && availability.value.nextOpenAt.None?)))
            && (phrase.SaysReason? ==>
                  var reason := availability.value.reason;
                  && (reason != "" ==> phrase.text == reason)
                  && (reason == "" && availability.value.status == Paused ==> phrase.text == "Temporarily paused")
                  && (reason == "" && availability.value.status == Closed ==> phrase.text == "Closed"))
            && (availability.Some? && availability.value.status == Closed && timezone == "" ==>
                  availability.value.nextOpenAt.None? || phrase == OpensAt)
  {
  }
}
