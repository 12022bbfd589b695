// `civil_from_days`, and the proleptic Gregorian calendar it is meant to be.
module Calendar {

  datatype Date = Date(year: int, month: int, day: int)

  // Days since 1970-01-01 to a date. The source's `div_euclid` and `rem_euclid`,
  // and its other divisions, whose operands are never negative, are Dafny's `/` and `%`.
  function CivilFromDays(days: int): Date {
    var z := days + 719_468;
    var era := z / 146_097;
    var dayOfEra := z % 146_097;
    var yearOfEra := YearOfEra(dayOfEra);
    MarchDate(yearOfEra + era * 400, dayOfEra - YearStart(yearOfEra))
  }

  // The date `dayOfYear` days after the first of March of `year`.
  function MarchDate(year: int, dayOfYear: int): Date {
    var shiftedMonth := (5 * dayOfYear + 2) / 153;
    var day := dayOfYear - (153 * shiftedMonth + 2) / 5 + 1;
    var month := if shiftedMonth < 10 then shiftedMonth + 3 else shiftedMonth - 9;
    Date(year + (if month <= 2 then 1 else 0), month, day)
  }

  function YearOfEra(dayOfEra: int): int {
    (dayOfEra - dayOfEra / 1460 + dayOfEra / 36_524 - dayOfEra / 146_096) / 365
  }

  function YearStart(yearOfEra: int): int {
    365 * yearOfEra + yearOfEra / 4 - yearOfEra / 100
  }

  // --- The calendar ---

  predicate Leap(year: int) {
    year % 4 == 0 && (year % 100 != 0 || year % 400 == 0)
  }

  function MonthDays(year: int, month: int): int {
    if month == 2 then (if Leap(year) then 29 else 28)
    else if month == 4 || month == 6 || month == 9 || month == 11 then 30
    else 31
  }

  predicate IsDate(d: Date) {
    1 <= d.month <= 12 && 1 <= d.day <= MonthDays(d.year, d.month)
  }

  function Successor(d: Date): Date {
    if d.day < MonthDays(d.year, d.month) then d.(day := d.day + 1)
    else if d.month < 12 then Date(d.year, d.month + 1, 1)
    else Date(d.year + 1, 1, 1)
  }

  predicate Earlier(a: Date, b: Date) {
    a.year < b.year || (a.year == b.year && (a.month < b.month || (a.month == b.month && a.day < b.day)))
  }

  // --- The days before a date, counted year by year and month by month ---

  function LeapsThrough(year: int): int {
    year / 4 - year / 100 + year / 400
  }

  function DaysBeforeYear(year: int): int {
    365 * (year - 1) + LeapsThrough(year - 1) - 719_162
  }

  function DaysBeforeMonth(year: int, month: int): int
    requires 1 <= month <= 12
    decreases month
  {
    if month == 1 then 0 else DaysBeforeMonth(year, month - 1) + MonthDays(year, month - 1)
  }

  function DaysFromCivil(d: Date): int
    requires IsDate(d)
  {
    DaysBeforeYear(d.year) + DaysBeforeMonth(d.year, d.month) + d.day - 1
  }

  lemma DivStep(x: int, n: int)
    requires n == 4 || n == 100 || n == 400
    ensures x / n == (x - 1) / n + (if x % n == 0 then 1 else 0)
  {
  }

  lemma FourthsAndHundredths(k: int)
    ensures 4 * k % 4 == 0 && 100 * k % 100 == 0
  {
  }

  lemma Multiples(x: int)
    ensures x % 400 == 0 ==> x % 100 == 0
    ensures x % 100 == 0 ==> x % 4 == 0
  {
    FourthsAndHundredths(4 * (x / 400));
    FourthsAndHundredths(25 * (x / 100));
    assert x == 400 * (x / 400) + x % 400 && x == 100 * (x / 100) + x % 100;
  }

  lemma LeapStep(year: int)
    ensures LeapsThrough(year) == LeapsThrough(year - 1) + (if Leap(year) then 1 else 0)
  {
    DivStep(year, 4);
    DivStep(year, 100);
    DivStep(year, 400);
    Multiples(year);
  }

  lemma MonthTable(year: int)
    ensures DaysBeforeMonth(year, 1) == 0 && DaysBeforeMonth(year, 2) == 31
    ensures var f := if Leap(year) then 1 else 0;
            && DaysBeforeMonth(year, 3) == 59 + f && DaysBeforeMonth(year, 4) == 90 + f
            && DaysBeforeMonth(year, 5) == 120 + f && DaysBeforeMonth(year, 6) == 151 + f
            && DaysBeforeMonth(year, 7) == 181 + f && DaysBeforeMonth(year, 8) == 212 + f
            && DaysBeforeMonth(year, 9) == 243 + f && DaysBeforeMonth(year, 10) == 273 + f
            && DaysBeforeMonth(year, 11) == 304 + f && DaysBeforeMonth(year, 12) == 334 + f
  {
    var m3 := DaysBeforeMonth(year, 3);
    var m5 := DaysBeforeMonth(year, 5);
    var m7 := DaysBeforeMonth(year, 7);
    var m9 := DaysBeforeMonth(year, 9);
    var m11 := DaysBeforeMonth(year, 11);
  }

  // --- The days of an era, counted from March ---

  // An era splits into centuries, four-year spans, years and days; the source's
  // divisor-juggling finds the year.
  lemma YearOfEraFound(c: int, q: int, a: int, d: int)
    requires 0 <= c <= 3 && 0 <= q <= 24 && 0 <= a <= 3 && 0 <= d <= 365
    requires d == 365 ==> a == 3
    requires 1461 * q + 365 * a + d <= 36_524
    requires 1461 * q + 365 * a + d == 36_524 ==> c == 3
    ensures YearOfEra(36_524 * c + 1461 * q + 365 * a + d) == 100 * c + 4 * q + a
    ensures YearStart(100 * c + 4 * q + a) == 36_524 * c + 1461 * q + 365 * a
  {
    var e := 36_524 * c + 1461 * q + 365 * a + d;
    var y := 100 * c + 4 * q + a;
    assert y / 4 == 25 * c + q && y / 100 == c;
    var t := 24 * c + q + 365 * a + d;
    var k := if t < 1460 then 0 else 1;
    assert e == 1460 * (25 * c + q) + t;
    assert e / 1460 == 25 * c + q + k;
    var last := if 1461 * q + 365 * a + d == 36_524 then 1 else 0;
    assert e / 36_524 == c + last;
    assert e / 146_096 == last;
    assert 0 <= d - k <= 364;
    assert e - e / 1460 + e / 36_524 - e / 146_096 == 365 * y + (d - k);
  }

  lemma SplitEra(e: int) returns (c: int, q: int, a: int, d: int)
    requires 0 <= e < 146_097
    ensures 0 <= c <= 3 && 0 <= q <= 24 && 0 <= a <= 3 && 0 <= d <= 365
    ensures d == 365 ==> a == 3
    ensures 1461 * q + 365 * a + d <= 36_524
    ensures 1461 * q + 365 * a + d == 36_524 ==> c == 3
    ensures e == 36_524 * c + 1461 * q + 365 * a + d
    ensures d == 365 ==> q < 24 || c == 3
  {
    c := if e / 36_524 < 3 then e / 36_524 else 3;
    var r := e - 36_524 * c;
    q := r / 1461;
    var r' := r - 1461 * q;
    a := if r' / 365 < 3 then r' / 365 else 3;
    d := r' - 365 * a;
  }

  lemma YearLength(year: int)
    ensures DaysBeforeYear(year + 1) == DaysBeforeYear(year) + (if Leap(year) then 366 else 365)
  {
    LeapStep(year);
  }

  // Counting from March, `y` years and `m` months (March is 0) give the same days.
  lemma FromMarch(y: int, m: int)
    requires 0 <= m <= 11
    ensures
      var month := if m < 10 then m + 3 else m - 9;
      var year := if m < 10 then y else y + 1;
      DaysBeforeYear(year) + DaysBeforeMonth(year, month) ==
        365 * y + LeapsThrough(y) + (153 * m + 2) / 5 - 719_468
  {
    LeapStep(y);
    MonthTable(y);
    MonthTable(y + 1);
  }

  // The source's day of the year, month and day of the month agree.
  lemma MonthFound(dayOfYear: int)
    requires 0 <= dayOfYear <= 365
    ensures
      var m := (5 * dayOfYear + 2) / 153;
      var day := dayOfYear - (153 * m + 2) / 5 + 1;
      0 <= m <= 11 && 1 <= day <= 31 && (m == 11 ==> day <= 29) && (m == 1 || m == 3 || m == 6 || m == 8 ==> day <= 30)
      && (m == 11 && day == 29 <==> dayOfYear == 365)
  {
  }

  lemma EraYear(era: int, y: int)
    requires 0 <= y < 400
    ensures 365 * (y + 400 * era) + LeapsThrough(y + 400 * era) == 146_097 * era + YearStart(y)
  {
    var x := y + 400 * era;
    assert x / 4 == y / 4 + 100 * era;
    assert x / 100 == y / 100 + 4 * era;
    assert x / 400 == era;
  }

  lemma LastDayIsLeap(era: int, c: int, q: int)
    requires 0 <= c <= 3 && 0 <= q <= 24 && (q < 24 || c == 3)
    ensures Leap(100 * c + 4 * q + 3 + 400 * era + 1)
  {
    var y := 100 * c + 4 * q + 4 + 400 * era;
    FourthsAndHundredths(25 * c + q + 1 + 100 * era);
    assert y == 4 * (25 * c + q + 1 + 100 * era);
    if q < 24 {
      OverHundreds(c + 4 * era, 4 * (q + 1));
    } else {
      FourHundreds(era + 1);
      assert y == 400 * (era + 1);
    }
  }

  lemma OverHundreds(k: int, rest: int)
    requires 0 <= rest < 100
    ensures (100 * k + rest) % 100 == rest
  {
  }

  lemma FourHundreds(k: int)
    ensures 400 * k % 400 == 0
  {
  }

  lemma CivilSplits(n: int) returns (era: int, y: int, d: int)
    ensures 0 <= y < 400 && 0 <= d <= 365 && (d == 365 ==> Leap(y + 400 * era + 1))
    ensures n + 719_468 == 146_097 * era + YearStart(y) + d
    ensures CivilFromDays(n) == MarchDate(y + 400 * era, d)
  {
    var z := n + 719_468;
    era := z / 146_097;
    y, d := EraSplits(z % 146_097, era);
  }

  lemma EraSplits(e: int, era: int) returns (y: int, d: int)
    requires 0 <= e < 146_097
    ensures 0 <= y < 400 && 0 <= d <= 365 && (d == 365 ==> Leap(y + 400 * era + 1))
    ensures YearOfEra(e) == y && e == YearStart(y) + d
  {
    var c, q, a;
    c, q, a, d := SplitEra(e);
    y := 100 * c + 4 * q + a;
    YearOfEraFound(c, q, a, d);
    if d == 365 {
      LastDayIsLeap(era, c, q);
    }
  }

  lemma MarchDateDays(year: int, d: int)
    requires 0 <= d <= 365 && (d == 365 ==> Leap(year + 1))
    ensures IsDate(MarchDate(year, d))
    ensures DaysFromCivil(MarchDate(year, d)) == 365 * year + LeapsThrough(year) + d - 719_468
  {
    var m := (5 * d + 2) / 153;
    MonthFound(d);
    FromMarch(year, m);
    MarchMonth(year, d, m, d - (153 * m + 2) / 5 + 1);
  }

  lemma MarchMonth(year: int, d: int, m: int, day: int)
    requires m == (5 * d + 2) / 153 && day == d - (153 * m + 2) / 5 + 1 && 0 <= m <= 11
    ensures MarchDate(year, d) == Date(if m < 10 then year else year + 1, if m < 10 then m + 3 else m - 9, day)
  {
  }

  // Every day has a date, and the date's day count is that day.
  lemma DaysOfCivil(n: int)
    ensures IsDate(CivilFromDays(n)) && DaysFromCivil(CivilFromDays(n)) == n
  {
    var era, y, d := CivilSplits(n);
    MarchDateDays(y + 400 * era, d);
    EraYear(era, y);
  }

  lemma YearsApart(a: int, b: int)
    requires a < b
    ensures DaysBeforeYear(a) + (if Leap(a) then 366 else 365) <= DaysBeforeYear(b)
    decreases b - a
  {
    YearLength(b - 1);
    if a < b - 1 {
      YearsApart(a, b - 1);
    } else {
      YearLength(a);
    }
  }

  lemma WithinYear(d: Date)
    requires IsDate(d)
    ensures 0 <= DaysBeforeMonth(d.year, d.month) + d.day - 1 < (if Leap(d.year) then 366 else 365)
  {
    MonthTable(d.year);
  }

  lemma MonthsApart(year: int, a: int, b: int)
    requires 1 <= a < b <= 12
    ensures DaysBeforeMonth(year, a) + MonthDays(year, a) <= DaysBeforeMonth(year, b)
    decreases b
  {
    if a < b - 1 {
      MonthsApart(year, a, b - 1);
    }
  }

  // The day count orders dates as the calendar does.
  lemma EarlierIsFewerDays(a: Date, b: Date)
    requires IsDate(a) && IsDate(b)
    ensures Earlier(a, b) <==> DaysFromCivil(a) < DaysFromCivil(b)
    ensures a == b <==> DaysFromCivil(a) == DaysFromCivil(b)
  {
    if Earlier(a, b) {
      FewerDays(a, b);
    } else if Earlier(b, a) {
      FewerDays(b, a);
    }
  }

  lemma FewerDays(a: Date, b: Date)
    requires IsDate(a) && IsDate(b) && Earlier(a, b)
    ensures DaysFromCivil(a) < DaysFromCivil(b)
  {
    WithinYear(a);
    WithinYear(b);
    if a.year < b.year {
      YearsApart(a.year, b.year);
    } else if a.month < b.month {
      MonthsApart(a.year, a.month, b.month);
    }
  }

  // And it is undone by the source's algorithm.
  lemma CivilOfDays(d: Date)
    requires IsDate(d)
    ensures CivilFromDays(DaysFromCivil(d)) == d
  {
    DaysOfCivil(DaysFromCivil(d));
    EarlierIsFewerDays(CivilFromDays(DaysFromCivil(d)), d);
  }

  lemma SuccessorIsNextDay(d: Date)
    requires IsDate(d)
    ensures IsDate(Successor(d)) && DaysFromCivil(Successor(d)) == DaysFromCivil(d) + 1
  {
    if d.day == MonthDays(d.year, d.month) && d.month == 12 {
      YearLength(d.year);
      MonthTable(d.year);
    }
  }

  lemma NextDayIsSuccessor(a: Date, b: Date)
    requires IsDate(a) && IsDate(b) && DaysFromCivil(b) == DaysFromCivil(a) + 1
    ensures b == Successor(a)
  {
    SuccessorIsNextDay(a);
    EarlierIsFewerDays(b, Successor(a));
  }

  lemma EpochIsDayZero()
    ensures CivilFromDays(0) == Date(1970, 1, 1)
  {
    assert 719_468 / 146_097 == 4 && 719_468 % 146_097 == 135_080;
    assert YearOfEra(135_080) == 369 && YearStart(369) == 134_774;
    assert MarchDate(1969, 306) == Date(1970, 1, 1);
  }

  // Day 0 is 1970-01-01, and each next day is the calendar's next date.
  lemma CivilIsTheCalendar(n: int)
    ensures CivilFromDays(0) == Date(1970, 1, 1)
    ensures IsDate(CivilFromDays(n)) && CivilFromDays(n + 1) == Successor(CivilFromDays(n))
  {
    EpochIsDayZero();
    DaysOfCivil(n);
    DaysOfCivil(n + 1);
    NextDayIsSuccessor(CivilFromDays(n), CivilFromDays(n + 1));
  }
}
