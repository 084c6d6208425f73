/** Business dates: proleptic Gregorian arithmetic as the JavaScript `Date` object does it,
    business-day offsets, ISO weeks and calendar months. */
module Calendar {

  /** A UTC midnight, counted in days from 1970-01-01. */
  type Day = int

  /** Year, month and day of a `YYYY-MM-DD` text, valid or not. */
  datatype Date = Date(year: int, month: int, day: int)

  datatype Result<T> = Ok(value: T) | InvalidBusinessDate

  predicate Leap(y: int) {
    y % 4 == 0 && (y % 100 != 0 || y % 400 == 0)
  }

  function DaysInMonth(y: int, m: int): int {
    if m == 2 then (if Leap(y) then 29 else 28)
    else if m == 4 || m == 6 || m == 9 || m == 11 then 30
    else 31
  }

  function DaysInYear(y: int): int {
    if Leap(y) then 366 else 365
  }

  /** Days from 1970-01-01 to 1 January of year y: the years in between, added up. */
  function DaysBeforeYear(y: int): int
    decreases if y < 1970 then 1970 - y else y - 1970
  {
    if y == 1970 then 0
    else if y > 1970 then DaysBeforeYear(y - 1) + DaysInYear(y - 1)
    else DaysBeforeYear(y + 1) - DaysInYear(y)
  }

  lemma NextYear(y: int)
    ensures DaysBeforeYear(y + 1) == DaysBeforeYear(y) + DaysInYear(y)
  {
  }

  /** The closed form by which `Date` finds a year's first day agrees with adding up the Gregorian years. */
  lemma {:induction false} ClosedForm(y: int)
    ensures DaysBeforeYear(y) == 365 * (y - 1970) + (y - 1969) / 4 - (y - 1901) / 100 + (y - 1601) / 400
    decreases if y < 1970 then 1970 - y else y - 1970
  {
    if y > 1970 {
      ClosedForm(y - 1);
      LeapCount(y - 1);
    } else if y < 1970 {
      ClosedForm(y + 1);
      LeapCount(y);
    }
  }

  lemma LeapCount(y: int)
    ensures (y - 1968) / 4 - (y - 1900) / 100 + (y - 1600) / 400
         == (y - 1969) / 4 - (y - 1901) / 100 + (y - 1601) / 400 + (if Leap(y) then 1 else 0)
  {
    var a := FourYears(y);
    var b := HundredYears(y);
    var c := FourHundredYears(y);
    assert c ==> b;
    assert b ==> a;
  }

  lemma FourYears(y: int) returns (divides: bool)
    ensures divides == (y % 4 == 0) && (y - 1968) / 4 == (y - 1969) / 4 + (if divides then 1 else 0)
  {
    divides := y % 4 == 0;
  }

  lemma HundredYears(y: int) returns (divides: bool)
    ensures divides == (y % 100 == 0) && (y - 1900) / 100 == (y - 1901) / 100 + (if divides then 1 else 0)
  {
    divides := y % 100 == 0;
  }

  lemma FourHundredYears(y: int) returns (divides: bool)
    ensures divides == (y % 400 == 0) && (y - 1600) / 400 == (y - 1601) / 400 + (if divides then 1 else 0)
  {
    divides := y % 400 == 0;
  }

  /** Days from 1 January to the first of month m; month 13 is the next January. */
  function DaysBeforeMonth(y: int, m: int): int {
    var common :=
      if m <= 1 then 0 else if m == 2 then 31 else if m == 3 then 59 else if m == 4 then 90
      else if m == 5 then 120 else if m == 6 then 151 else if m == 7 then 181 else if m == 8 then 212
      else if m == 9 then 243 else if m == 10 then 273 else if m == 11 then 304 else if m == 12 then 334 else 365;
    common + (if m > 2 && Leap(y) then 1 else 0)
  }

  /** A date that exists in the Gregorian calendar. */
  predicate Exists(date: Date) {
    1 <= date.month <= 12 && 1 <= date.day <= DaysInMonth(date.year, date.month)
  }

  function DayOf(date: Date): Day {
    DaysBeforeYear(date.year) + DaysBeforeMonth(date.year, date.month) + date.day - 1
  }

  lemma {:induction false} YearsGrow(y: int, z: int)
    requires y < z
    ensures DaysBeforeYear(y) + 365 <= DaysBeforeYear(y + 1) <= DaysBeforeYear(z)
    decreases z - y
  {
    NextYear(y);
    if y + 1 < z {
      YearsGrow(y + 1, z);
    }
  }

  /** The year a day falls in: the last one that has begun by then. */
  function YearOf(n: Day): (y: int)
    ensures DaysBeforeYear(y) <= n < DaysBeforeYear(y + 1)
  {
    if n >= 0 then YearFrom(n, 1970) else YearBack(n, 1969)
  }

  function YearFrom(n: Day, from: int): (y: int)
    requires from >= 1970 && DaysBeforeYear(from) <= n
    ensures DaysBeforeYear(y) <= n < DaysBeforeYear(y + 1)
    decreases n - DaysBeforeYear(from)
  {
    if n < DaysBeforeYear(from + 1) then from else YearFrom(n, from + 1)
  }

  function YearBack(n: Day, from: int): (y: int)
    requires from < 1970 && n < DaysBeforeYear(from + 1)
    ensures DaysBeforeYear(y) <= n < DaysBeforeYear(y + 1)
    decreases DaysBeforeYear(from + 1) - n
  {
    if DaysBeforeYear(from) <= n then from else YearBack(n, from - 1)
  }

  function MonthFrom(y: int, dayOfYear: int, m: int): (month: int)
    requires 1 <= m <= 12 && DaysBeforeMonth(y, m) <= dayOfYear < DaysBeforeMonth(y, 13)
    ensures m <= month <= 12
    ensures DaysBeforeMonth(y, month) <= dayOfYear < DaysBeforeMonth(y, month + 1)
    decreases 12 - m
  {
    if dayOfYear < DaysBeforeMonth(y, m + 1) then m else MonthFrom(y, dayOfYear, m + 1)
  }

  lemma DayWithinMonth(y: int, m: int, dayOfYear: int)
    requires 1 <= m <= 12 && DaysBeforeMonth(y, m) <= dayOfYear < DaysBeforeMonth(y, m + 1)
    ensures var date := Date(y, m, dayOfYear - DaysBeforeMonth(y, m) + 1);
            Exists(date) && DayOf(date) == DaysBeforeYear(y) + dayOfYear
  {
    hide DaysBeforeYear, Leap;
  }

  lemma DayWithinYear(y: int, n: Day)
    requires DaysBeforeYear(y) <= n < DaysBeforeYear(y + 1)
    ensures DaysBeforeMonth(y, 1) <= n - DaysBeforeYear(y) < DaysBeforeMonth(y, 13)
  {
    hide DaysBeforeYear, Leap;
    NextYear(y);
  }

  /** Year, month and day of month read back from a `Date`. */
  function CivilOf(n: Day): (date: Date)
    ensures Exists(date) && DayOf(date) == n
  {
    var y := YearOf(n);
    DayWithinYear(y, n);
    var dayOfYear := n - DaysBeforeYear(y);
    var m := MonthFrom(y, dayOfYear, 1);
    DayWithinMonth(y, m, dayOfYear);
    Date(y, m, dayOfYear - DaysBeforeMonth(y, m) + 1)
  }

  /** Chronological order of dates, which is also the order of their fixed-width texts. */
  predicate Before(a: Date, b: Date) {
    a.year < b.year || (a.year == b.year && (a.month < b.month || (a.month == b.month && a.day < b.day)))
  }

  lemma MonthsGrow(y: int, m: int, n: int)
    requires 1 <= m < n <= 12
    ensures DaysBeforeMonth(y, m) + DaysInMonth(y, m) <= DaysBeforeMonth(y, n)
  {
  }

  lemma DayOfYearBound(date: Date)
    requires Exists(date)
    ensures DaysBeforeYear(date.year) <= DayOf(date) < DaysBeforeYear(date.year + 1)
  {
    NextYear(date.year);
    if date.month < 12 {
      MonthsGrow(date.year, date.month, 12);
    }
  }

  /** Day numbers order dates exactly as the calendar does. */
  lemma OrderPreserved(a: Date, b: Date)
    requires Exists(a) && Exists(b)
    ensures Before(a, b) <==> DayOf(a) < DayOf(b)
    ensures DayOf(a) == DayOf(b) <==> a == b
  {
    if Before(a, b) {
      OrderForward(a, b);
    } else if Before(b, a) {
      OrderForward(b, a);
    }
  }

  lemma OrderForward(a: Date, b: Date)
    requires Exists(a) && Exists(b) && Before(a, b)
    ensures DayOf(a) < DayOf(b)
  {
    if a.year < b.year {
      DayOfYearBound(a);
      DayOfYearBound(b);
      YearsGrow(a.year, b.year);
    } else if a.month < b.month {
      MonthsGrow(a.year, a.month, b.month);
    }
  }

  /** Civil dates and day numbers are in bijection. */
  lemma CivilRoundTrip(date: Date)
    requires Exists(date)
    ensures CivilOf(DayOf(date)) == date
  {
    OrderPreserved(CivilOf(DayOf(date)), date);
  }

  /** `Date.UTC(y, m - 1, d)`: years 0..99 mean 1900..1999, months carry into years, days carry into months. */
  function JsUtc(y: int, m: int, d: int): Day {
    var year := if 0 <= y <= 99 then 1900 + y else y;
    var first := if 1 <= m <= 12 then Date(year, m, 1) else Date(year + (m - 1) / 12, (m - 1) % 12 + 1, 1);
    DayOf(first) + d - 1
  }

  /** Four, two and two digits that `Date` reads back unchanged. */
  predicate IsBusinessDate(date: Date) {
    && 0 <= date.year <= 9999 && 0 <= date.month <= 99 && 0 <= date.day <= 99
    && CivilOf(JsUtc(date.year, date.month, date.day)) == date
  }

  /** The Gregorian dates of the years 100 to 9999. */
  predicate Gregorian(date: Date) {
    100 <= date.year <= 9999 && Exists(date)
  }

  /** The validator accepts exactly the Gregorian dates from year 100 on: earlier years come back as 19xx. */
  lemma BusinessDatesAreGregorian(date: Date)
    ensures IsBusinessDate(date) <==> Gregorian(date)
  {
    if Gregorian(date) {
      assert JsUtc(date.year, date.month, date.day) == DayOf(date);
      CivilRoundTrip(date);
    } else if 0 <= date.year <= 99 && 0 <= date.month && 0 <= date.day {
      NotBefore1899(date);
    }
  }

  lemma NotBefore1899(date: Date)
    requires 0 <= date.year <= 99 && 0 <= date.month && 0 <= date.day
    ensures CivilOf(JsUtc(date.year, date.month, date.day)).year >= 1899
  {
    var n := JsUtc(date.year, date.month, date.day);
    var carried := 1900 + date.year + (date.month - 1) / 12;
    assert carried >= 1899;
    hide Leap;
    assert n >= DaysBeforeYear(carried) - 1;
    YearsGrow(1898, 1899);
    if carried > 1899 { YearsGrow(1899, carried); }
    assert n >= DaysBeforeYear(1899) - 1;
    var y := CivilOf(n).year;
    if y < 1899 { YearsGrow(y, 1899); }
  }

  /** Move a date by whole business days. The result may leave the years the validator accepts. */
  function AddBusinessDays(date: Date, amount: int): Result<Date> {
    if !IsBusinessDate(date) then InvalidBusinessDate
    else Ok(CivilOf(JsUtc(date.year, date.month, date.day + amount)))
  }

  lemma UtcOfBusinessDate(date: Date, extra: int)
    requires Gregorian(date)
    ensures Exists(date) && JsUtc(date.year, date.month, date.day + extra) == DayOf(date) + extra
  {
    BusinessDatesAreGregorian(date);
  }

  /** Offsets add up and undo each other; the only step that can fail is one that starts outside the accepted years. */
  lemma BusinessDaysCompose(date: Date, a: int, b: int)
    requires Gregorian(date)
    ensures AddBusinessDays(date, a).Ok? && DayOf(AddBusinessDays(date, a).value) == DayOf(date) + a
    ensures var there := AddBusinessDays(date, a).value;
            if 100 <= there.year <= 9999
            then AddBusinessDays(there, b) == AddBusinessDays(date, a + b) && AddBusinessDays(there, -a) == Ok(date)
            else AddBusinessDays(there, b) == InvalidBusinessDate
  {
    hide JsUtc, CivilOf, DaysInMonth, DayOf, IsBusinessDate;
    BusinessDatesAreGregorian(date);
    UtcOfBusinessDate(date, a);
    var there := AddBusinessDays(date, a).value;
    BusinessDatesAreGregorian(there);
    if IsBusinessDate(there) {
      UtcOfBusinessDate(there, b);
      UtcOfBusinessDate(there, -a);
      UtcOfBusinessDate(date, a + b);
      CivilRoundTrip(date);
    }
  }

  /** 1 = Monday .. 7 = Sunday; 1970-01-01 was a Thursday. */
  function Weekday(n: Day): (w: int)
    ensures 1 <= w <= 7
  {
    if (n + 4) % 7 == 0 then 7 else (n + 4) % 7
  }

  function Monday(n: Day): (monday: Day)
    ensures monday <= n <= monday + 6 && Weekday(monday) == 1
  {
    n - Weekday(n) + 1
  }

  function Sunday(n: Day): (sunday: Day)
    ensures Weekday(sunday) == 7
  {
    Monday(n) + 6
  }

  /** ISO 8601:2004 section 4.1.4: a week belongs to the year of its Thursday ... */
  function IsoYear(n: Day): int { YearOf(Monday(n) + 3) }

  /** ... and is numbered by how many of that year's Thursdays come up to it. */
  function IsoWeek(n: Day): int {
    var thursday := Monday(n) + 3;
    (thursday - DaysBeforeYear(YearOf(thursday))) / 7 + 1
  }

  datatype Week = Week(isoYear: int, number: int, start: Day, end: Day)

  /** Monday-based week bounds and number, on `Date` objects that are moved in place. */
  method IsoWeekFor(date: Date) returns (r: Result<Week>)
    ensures r.InvalidBusinessDate? <==> !IsBusinessDate(date)
    ensures r.Ok? ==> r.value == WeekOf(date)
  {
    hide YearOf, JsUtc, IsBusinessDate;
    if !IsBusinessDate(date) {
      return InvalidBusinessDate;
    }
    var instant := JsUtc(date.year, date.month, date.day);
    var weekday := if (instant + 4) % 7 == 0 then 7 else (instant + 4) % 7;
    var start := instant;
    start := start - weekday + 1;
    var end := start;
    end := end + 6;
    var thursday := instant;
    thursday := thursday + 4 - weekday;
    var isoYear := YearOf(thursday);
    var januaryFourth := JsUtc(isoYear, 1, 4);
    var janWeekday := if (januaryFourth + 4) % 7 == 0 then 7 else (januaryFourth + 4) % 7;
    var firstMonday := januaryFourth;
    firstMonday := firstMonday - janWeekday + 1;
    var week := (thursday - firstMonday) / 7 + 1;
    return Ok(Week(isoYear, week, start, end));
  }

  /** What `IsoWeekFor` computes for a business date. */
  function WeekOf(date: Date): Week {
    var n := JsUtc(date.year, date.month, date.day);
    var y := IsoYear(n);
    Week(y, (Monday(n) + 3 - Monday(JsUtc(y, 1, 4))) / 7 + 1, Monday(n), Sunday(n))
  }

  /** 4 January always lies in week 1, so counting weeks from its Monday counts Thursdays. */
  lemma WeekCount(n: Day, y: int)
    requires y == IsoYear(n)
    ensures 1 <= IsoWeek(n) <= 53
    ensures (Monday(n) + 3 - Monday(DaysBeforeYear(y) + 3)) / 7 + 1 == IsoWeek(n)
  {
    NextYear(y);
    hide Leap, YearOf, DaysBeforeYear;
    var thursday := Monday(n) + 3;
    var first := DaysBeforeYear(y);
    assert first <= thursday < first + 366;
    assert Weekday(thursday) == 4;
  }

  /** The three days whose week belongs to year 99, which `Date.UTC` takes for 1999. */
  predicate InWeekOfYear99(date: Date) {
    date.year == 100 && date.month == 1 && date.day <= 3
  }

  /** The Monday to Friday whose week ends in year 10000. */
  predicate InLastWeekOf9999(date: Date) {
    date.year == 9999 && date.month == 12 && date.day >= 27
  }

  /** Day numbers of the calendar's edges; 0100-01-01 and 9999-12-31 are Fridays. */
  lemma FixedDays()
    ensures DayOf(Date(100, 1, 1)) == DaysBeforeYear(100) == -683003
    ensures DayOf(Date(100, 1, 3)) == -683001 && DayOf(Date(100, 1, 4)) == -683000
    ensures DayOf(Date(9999, 12, 27)) == 2932892 && DayOf(Date(9999, 12, 31)) == 2932896
    ensures DaysBeforeYear(10000) == 2932897
  {
    hide DaysBeforeYear;
    ClosedForm(100);
    ClosedForm(9999);
    ClosedForm(10000);
  }

  /** Where a business date lies between the calendar's edges. */
  lemma EdgePositions(date: Date)
    requires Gregorian(date)
    ensures -683003 <= DayOf(date) <= 2932896
    ensures InWeekOfYear99(date) <==> DayOf(date) < -683000
    ensures InLastWeekOf9999(date) <==> DayOf(date) >= 2932892
  {
    BusinessDatesAreGregorian(date);
    FixedDays();
    OrderPreserved(date, Date(100, 1, 1));
    OrderPreserved(date, Date(100, 1, 4));
    OrderPreserved(date, Date(9999, 12, 27));
    OrderPreserved(Date(9999, 12, 31), date);
  }

  /** Day numbers between the edges are business dates, and only those. */
  lemma EdgesAreSharp(n: Day)
    ensures IsBusinessDate(CivilOf(n)) <==> -683003 <= n <= 2932896
  {
    var date := CivilOf(n);
    BusinessDatesAreGregorian(date);
    FixedDays();
    DayOfYearBound(date);
    if date.year < 100 { YearsGrow(date.year, 100); }
    if date.year > 9999 { YearsGrow(9999, date.year); }
    if 100 < date.year { YearsGrow(100, date.year); }
    if date.year < 9999 { YearsGrow(date.year, 10000); }
  }

  lemma EdgeWeeks(n: Day)
    requires -683003 <= n <= 2932896
    ensures -683004 <= Monday(n) + 3 <= 2932895
    ensures Monday(n) + 3 < -683003 <==> n < -683000
    ensures Monday(n) < -683003 <==> n < -683000
    ensures Monday(n) + 6 > 2932896 <==> n >= 2932892
    ensures n < -683000 ==> Monday(n) == -683007
    ensures Monday(10595) == 10595
  {
  }

  lemma IsoYearBounds(date: Date)
    requires Gregorian(date)
    ensures 99 <= IsoYear(DayOf(date)) <= 9999
    ensures IsoYear(DayOf(date)) == 99 <==> InWeekOfYear99(date)
  {
    EdgePositions(date);
    EdgeWeeks(DayOf(date));
    EdgeYears(Monday(DayOf(date)) + 3);
  }

  lemma EdgeYears(n: Day)
    requires -683004 <= n <= 2932895
    ensures 99 <= YearOf(n) <= 9999 && (YearOf(n) == 99 <==> n < -683003)
  {
    FixedDays();
    YearsGrow(99, 100);
    var y := YearOf(n);
    if y < 99 { YearsGrow(y, 99); }
    if y > 9999 { YearsGrow(9999, y); }
    if y > 100 { YearsGrow(100, y); }
  }

  /** `Date.UTC` sends 4 January of year 99 to 1999, and keeps every later year. */
  lemma JanuaryFourth(y: int)
    requires 99 <= y
    ensures JsUtc(y, 1, 4) == (if y == 99 then 10595 else DaysBeforeYear(y) + 3)
  {
    if y == 99 { ClosedForm(1999); }
    hide Leap;
  }

  /** The week contains the date and runs Monday to Sunday; its number follows ISO 8601 for every date
      except the first three days of year 100, whose week number comes out negative. */
  lemma WeekFollowsIso(date: Date)
    requires Gregorian(date)
    ensures var w := WeekOf(date);
            && w.start <= DayOf(date) <= w.end && w.end == w.start + 6
            && Weekday(w.start) == 1 && Weekday(w.end) == 7
            && w.isoYear == IsoYear(DayOf(date))
            && (w.number == IsoWeek(DayOf(date)) <==> !InWeekOfYear99(date))
            && (1 <= w.number <= 53 <==> !InWeekOfYear99(date))
  {
    hide YearOf, JsUtc, DayOf, Leap, DaysBeforeYear, IsoWeek, Monday, InWeekOfYear99, Exists;
    UtcOfBusinessDate(date, 0);
    IsoYearBounds(date);
    EdgePositions(date);
    var n := DayOf(date);
    var y := IsoYear(n);
    WeekCount(n, y);
    JanuaryFourth(y);
    EdgeWeeks(n);
  }

  /** Week identifiers separate weeks: two dates share one exactly when they share a Monday. */
  lemma WeekIdIdentifiesWeek(a: Date, b: Date)
    requires Gregorian(a) && Gregorian(b)
    ensures var v, w := WeekOf(a), WeekOf(b);
            (v.isoYear == w.isoYear && v.number == w.number) <==> v.start == w.start
  {
    hide YearOf, JsUtc, DayOf, Leap, Weekday;
    UtcOfBusinessDate(a, 0);
    UtcOfBusinessDate(b, 0);
    MondaysApart(Monday(DayOf(a)), Monday(DayOf(b)), Monday(JsUtc(IsoYear(DayOf(a)), 1, 4)));
  }

  lemma MondaysApart(v: Day, w: Day, base: Day)
    requires Weekday(v) == Weekday(w) == Weekday(base) == 1
    ensures (v + 3 - base) / 7 == (w + 3 - base) / 7 <==> v == w
  {
  }

  /** Both bounds are themselves business dates for all but the weeks that touch years 99 and 10000. */
  lemma WeekBoundsAreBusinessDates(date: Date)
    requires Gregorian(date)
    ensures IsBusinessDate(CivilOf(WeekOf(date).start)) <==> !InWeekOfYear99(date)
    ensures IsBusinessDate(CivilOf(WeekOf(date).end)) <==> !InLastWeekOf9999(date)
  {
    UtcOfBusinessDate(date, 0);
    EdgePositions(date);
    EdgeWeeks(DayOf(date));
    EdgesAreSharp(WeekOf(date).start);
    EdgesAreSharp(WeekOf(date).end);
  }

  function MonthStart(n: Day): Day { n - CivilOf(n).day + 1 }

  function MonthEnd(n: Day): Day {
    var c := CivilOf(n);
    JsUtc(c.year, c.month + 1, 0)
  }

  lemma NextMonthDayZero(y: int, m: int)
    requires 100 <= y && 1 <= m <= 12
    ensures JsUtc(y, m + 1, 0) == DaysBeforeYear(y) + DaysBeforeMonth(y, m) + DaysInMonth(y, m) - 1
  {
    NextYear(y);
  }

  /** First and last day of the calendar month; `Date.UTC(y, m, 0)` is the day before the next month. */
  lemma MonthIsWhole(date: Date)
    requires Gregorian(date)
    ensures var n := DayOf(date);
            && CivilOf(MonthStart(n)) == Date(date.year, date.month, 1)
            && CivilOf(MonthEnd(n)) == Date(date.year, date.month, DaysInMonth(date.year, date.month))
            && MonthStart(n) <= n <= MonthEnd(n)
  {
    hide CivilOf, JsUtc, Leap, DaysBeforeYear, DaysBeforeMonth;
    var last := Date(date.year, date.month, DaysInMonth(date.year, date.month));
    CivilRoundTrip(date);
    CivilRoundTrip(Date(date.year, date.month, 1));
    CivilRoundTrip(last);
    NextMonthDayZero(date.year, date.month);
  }
}
