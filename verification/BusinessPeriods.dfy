/** The periods the archive seals: ISO weeks and calendar months of the business calendar. */
module BusinessPeriods {
  import opened Calendar
  import Archive

  function WeekSpan(n: Day): Archive.Span { Archive.Span(Monday(n), Sunday(n)) }

  function MonthSpan(n: Day): Archive.Span {
    var c := CivilOf(n);
    Archive.Span(DayOf(Date(c.year, c.month, 1)), DayOf(Date(c.year, c.month, DaysInMonth(c.year, c.month))))
  }

  function Gregorian(): Archive.Periods {
    Archive.Periods(WeekSpan, MonthSpan)
  }

  lemma WeeksPartition(d: Day, e: Day)
    ensures WeekSpan(d).start <= d <= WeekSpan(d).end
    ensures WeekSpan(d).start <= e <= WeekSpan(d).end ==> WeekSpan(e) == WeekSpan(d)
  {
  }

  lemma MonthsPartition(d: Day, e: Day)
    ensures MonthSpan(d).start <= d <= MonthSpan(d).end
    ensures MonthSpan(d).start <= e <= MonthSpan(d).end ==> MonthSpan(e) == MonthSpan(d)
  {
    hide CivilOf, DaysBeforeYear, DaysBeforeMonth, Leap;
    var c := CivilOf(d);
    if MonthSpan(d).start <= e <= MonthSpan(d).end {
      CivilRoundTrip(Date(c.year, c.month, e - MonthSpan(d).start + 1));
    }
  }

  lemma WeekPartition()
    ensures Archive.Partition(WeekSpan)
  {
    hide WeekSpan;
    forall d, e ensures WeekSpan(d).start <= d <= WeekSpan(d).end
                ensures WeekSpan(d).start <= e <= WeekSpan(d).end ==> WeekSpan(e) == WeekSpan(d)
    {
      WeeksPartition(d, e);
    }
  }

  lemma MonthPartition()
    ensures Archive.Partition(MonthSpan)
  {
    hide MonthSpan;
    forall d, e ensures MonthSpan(d).start <= d <= MonthSpan(d).end
                ensures MonthSpan(d).start <= e <= MonthSpan(d).end ==> MonthSpan(e) == MonthSpan(d)
    {
      MonthsPartition(d, e);
    }
  }

  /** Weeks and months each divide the calendar, which is all the archive needs to know about them. */
  lemma GregorianPartitions()
    ensures Archive.Partition(Gregorian().week) && Archive.Partition(Gregorian().month)
  {
    hide Archive.Partition;
    WeekPartition();
    MonthPartition();
  }

  lemma WeekAsComputed(date: Date)
    requires Calendar.Gregorian(date)
    ensures WeekSpan(DayOf(date)) == Archive.Span(WeekOf(date).start, WeekOf(date).end)
  {
    hide Monday, Sunday, JsUtc, DayOf, IsoYear, Calendar.Gregorian;
    UtcOfBusinessDate(date, 0);
  }

  lemma MonthAsComputed(date: Date)
    requires Calendar.Gregorian(date)
    ensures MonthSpan(DayOf(date)) == Archive.Span(MonthStart(DayOf(date)), MonthEnd(DayOf(date)))
  {
    hide JsUtc, DaysBeforeYear, DaysBeforeMonth, DaysInMonth, CivilOf;
    BusinessDatesAreGregorian(date);
    CivilRoundTrip(date);
    NextMonthDayZero(date.year, date.month);
  }

  /** On business dates these are the bounds that `isoWeekFor` and `monthFor` return. */
  lemma SpansAsComputed(date: Date)
    requires Calendar.Gregorian(date)
    ensures WeekSpan(DayOf(date)) == Archive.Span(WeekOf(date).start, WeekOf(date).end)
    ensures MonthSpan(DayOf(date)) == Archive.Span(MonthStart(DayOf(date)), MonthEnd(DayOf(date)))
  {
    hide WeekSpan, MonthSpan, DayOf, WeekOf, MonthStart, MonthEnd, Calendar.Gregorian;
    WeekAsComputed(date);
    MonthAsComputed(date);
  }
}
