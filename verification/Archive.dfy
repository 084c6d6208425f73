/** Sealing ended days, weeks and months: what one rollover adds, and why what it sealed stays true for ever. */
module Archive {
  import opened Common
  import opened Ledger
  import opened Database

  datatype Span = Span(start: Day, end: Day)

  /** The week and the month of a date. */
  datatype Periods = Periods(week: Day -> Span, month: Day -> Span)

  /** Every date lies in its own span, and all dates of a span share it. */
  ghost predicate Partition(period: Day -> Span) {
    && (forall d :: period(d).start <= d <= period(d).end)
    && (forall d, e :: period(d).start <= e <= period(d).end ==> period(e) == period(d))
  }

  function CasesOn(db: Db, d: Day): set<CaseId> {
    set c | c in db.cases && db.cases[c].day == d
  }

  function PendingDays(db: Db, today: Day): set<Day> {
    set c | c in db.cases && db.cases[c].day < today && db.cases[c].day !in db.archive.days :: db.cases[c].day
  }

  function PendingPeriods(rows: map<Day, PeriodRow>, candidates: set<Day>, period: Day -> Span, today: Day): set<Day> {
    set d | d in candidates && period(d).end < today && period(d).start !in rows :: period(d).start
  }

  datatype Sums = Sums(covered: nat, up: nat, down: nat)

  /** Sum of the sealed days from first to last. */
  function SumDays(days: map<Day, DayRow>, first: Day, last: Day): Sums
    decreases if last < first then 0 else last - first + 1
  {
    if last < first then Sums(0, 0, 0)
    else
      var rest := SumDays(days, first, last - 1);
      if last in days then Sums(rest.covered + 1, rest.up + days[last].up, rest.down + days[last].down) else rest
  }

  function SideOf(stats: map<CaseId, StatsRow>, c: CaseId, direction: Direction): nat {
    if c !in stats then 0 else if direction == Up then stats[c].up else stats[c].down
  }

  ghost function Any(cases: set<CaseId>): (c: CaseId)
    requires cases != {}
    ensures c in cases
  {
    var c :| c in cases; c
  }

  /** Sum of one side of the aggregates of a set of cases. */
  ghost function SumStats(stats: map<CaseId, StatsRow>, cases: set<CaseId>, direction: Direction): nat {
    if cases == {} then 0
    else
      var c := Any(cases);
      SideOf(stats, c, direction) + SumStats(stats, cases - {c}, direction)
  }

  /** The order in which the aggregates are added does not matter. */
  lemma {:induction false} SumStatsTake(stats: map<CaseId, StatsRow>, cases: set<CaseId>, c: CaseId, direction: Direction)
    requires c in cases
    ensures SumStats(stats, cases, direction) == SideOf(stats, c, direction) + SumStats(stats, cases - {c}, direction)
    decreases |cases|
  {
    var first := Any(cases);
    if first != c {
      SumStatsTake(stats, cases - {first}, c, direction);
      SumStatsTake(stats, cases - {c}, first, direction);
      assert cases - {first} - {c} == cases - {c} - {first};
    }
  }

  ghost function SealDay(db: Db, d: Day, version: nat): DayRow {
    var cases := CasesOn(db, d);
    DayRow(|cases|, SumStats(db.stats, cases, Up), SumStats(db.stats, cases, Down), |Voters(db.votes, Between(d, d))|, version)
  }

  function SealPeriod(days: map<Day, DayRow>, votes: seq<VoteRow>, span: Span, version: nat): PeriodRow {
    var sums := SumDays(days, span.start, span.end);
    PeriodRow(span.end, sums.covered, sums.up, sums.down, |Voters(votes, Between(span.start, span.end))|, version)
  }

  ghost function SealDays(db: Db, pending: set<Day>, version: nat): map<Day, DayRow> {
    db.archive.days + map d | d in pending :: SealDay(db, d, version)
  }

  function SealPeriods(rows: map<Day, PeriodRow>, pending: set<Day>, days: map<Day, DayRow>, votes: seq<VoteRow>,
                       period: Day -> Span, version: nat): map<Day, PeriodRow> {
    rows + map s | s in pending :: SealPeriod(days, votes, period(s), version)
  }

  /** Freeze every ended day, then every ended week and month that holds a sealed day. All rows of one rollover share
      one new version; a rollover with nothing to add leaves the version alone. */
  ghost function Finalize(db: Db, periods: Periods, today: Day): Database.Archive {
    var a := db.archive;
    var pending := PendingDays(db, today);
    var weeks := PendingPeriods(a.weeks, a.days.Keys + pending, periods.week, today);
    var months := PendingPeriods(a.months, a.days.Keys + pending, periods.month, today);
    if pending == {} && weeks == {} && months == {} then a
    else
      var version := a.version + 1;
      var days := SealDays(db, pending, version);
      Database.Archive.Archive(version, days,
        SealPeriods(a.weeks, weeks, days, db.votes, periods.week, version),
        SealPeriods(a.months, months, days, db.votes, periods.month, version))
  }

  // ----- what a sealed row claims, about the cases and votes of db -----

  /** A sealed day states the ledger's counts for its date, which had cases, all closed now. */
  ghost predicate DayTrue(db: Db, d: Day, row: DayRow, version: nat) {
    && row.up == Total(db.votes, OnDay(d, Up)) && row.down == Total(db.votes, OnDay(d, Down))
    && row.uniqueVoters == |Voters(db.votes, Between(d, d))|
    && row.caseCount == |CasesOn(db, d)| && row.caseCount > 0
    && (forall c :: c in db.cases && db.cases[c].day == d ==> !db.cases[c].active)
    && 0 < row.version <= version
  }

  ghost predicate DaysTrue(db: Db, days: map<Day, DayRow>, today: Day, version: nat) {
    forall d :: d in days ==> d < today && DayTrue(db, d, days[d], version)
  }

  /** A sealed period states the sum of its sealed days, at least one, and the voters of its range; no case date in it is
      unsealed. */
  ghost predicate PeriodTrue(db: Db, days: map<Day, DayRow>, start: Day, row: PeriodRow, period: Day -> Span, version: nat) {
    && period(start) == Span(start, row.end)
    && row == SealPeriod(days, db.votes, Span(start, row.end), row.version) && row.coveredDays > 0
    && (forall c :: c in db.cases && start <= db.cases[c].day <= row.end ==> db.cases[c].day in days)
    && 0 < row.version <= version
  }

  ghost predicate PeriodsTrue(db: Db, days: map<Day, DayRow>, rows: map<Day, PeriodRow>, period: Day -> Span, today: Day, version: nat) {
    forall s :: s in rows ==> rows[s].end < today && PeriodTrue(db, days, s, rows[s], period, version)
  }

  /** Everything sealed is true, and lies before the latest business date any process has seen. */
  ghost predicate ArchiveTrue(db: Db, a: Database.Archive, periods: Periods, today: Day) {
    && DaysTrue(db, a.days, today, a.version)
    && PeriodsTrue(db, a.days, a.weeks, periods.week, today, a.version)
    && PeriodsTrue(db, a.days, a.months, periods.month, today, a.version)
  }

  ghost predicate DaysCovered(db: Db, days: map<Day, DayRow>, before: Day) {
    forall c :: c in db.cases && db.cases[c].day < before ==> db.cases[c].day in days
  }

  ghost predicate PeriodsCovered(days: map<Day, DayRow>, rows: map<Day, PeriodRow>, period: Day -> Span, before: Day) {
    forall d :: d in days && period(d).end < before ==> period(d).start in rows
  }

  /** Nothing that ended before a date is left unsealed. */
  ghost predicate SealedBefore(db: Db, a: Database.Archive, periods: Periods, before: Day) {
    && DaysCovered(db, a.days, before)
    && PeriodsCovered(a.days, a.weeks, periods.week, before)
    && PeriodsCovered(a.days, a.months, periods.month, before)
  }

  ghost predicate DaysExtend(old_: map<Day, DayRow>, new_: map<Day, DayRow>, oldVersion: nat, newVersion: nat) {
    && (forall d :: d in old_ ==> d in new_ && new_[d] == old_[d])
    && (forall d :: d in new_ && d !in old_ ==> oldVersion < new_[d].version <= newVersion)
  }

  ghost predicate PeriodsExtend(old_: map<Day, PeriodRow>, new_: map<Day, PeriodRow>, oldVersion: nat, newVersion: nat) {
    && (forall s :: s in old_ ==> s in new_ && new_[s] == old_[s])
    && (forall s :: s in new_ && s !in old_ ==> oldVersion < new_[s].version <= newVersion)
  }

  /** Sealed rows are never changed or dropped, and rows added later carry a higher version. */
  ghost predicate Extends(old_: Database.Archive, new_: Database.Archive) {
    && old_.version <= new_.version
    && DaysExtend(old_.days, new_.days, old_.version, new_.version)
    && PeriodsExtend(old_.weeks, new_.weeks, old_.version, new_.version)
    && PeriodsExtend(old_.months, new_.months, old_.version, new_.version)
  }

  // ----- the facts about the ledger a rollover relies on -----

  /** Votes name existing cases and carry their case's date; aggregates equal the ledger. */
  ghost predicate LedgerAgrees(db: Db) {
    && (forall v :: v in db.votes ==> v.caseId in db.cases && v.day == db.cases[v.caseId].day)
    && (forall c :: c in db.cases ==> c in db.stats && db.stats[c].up == Total(db.votes, OnCase(c, Up))
                                      && db.stats[c].down == Total(db.votes, OnCase(c, Down)))
  }

  function InCases(cases: set<CaseId>, direction: Direction): Filter {
    (v: VoteRow) => v.caseId in cases && v.direction == direction
  }

  /** Adding up the aggregates of a set of cases counts exactly their votes. */
  lemma {:induction false} SumStatsIsTotal(db: Db, cases: set<CaseId>, direction: Direction)
    requires LedgerAgrees(db) && cases <= db.cases.Keys
    ensures SumStats(db.stats, cases, direction) == Total(db.votes, InCases(cases, direction))
    decreases |cases|
  {
    if cases == {} {
      TotalNone(db.votes, InCases(cases, direction));
    } else {
      var c := Any(cases);
      SumStatsIsTotal(db, cases - {c}, direction);
      TotalSplits(db.votes, OnCase(c, direction), InCases(cases - {c}, direction), InCases(cases, direction));
    }
  }

  /** The sum over a date's cases is the ledger's total for the date. */
  lemma DaySumIsTotal(db: Db, d: Day, direction: Direction)
    requires LedgerAgrees(db)
    ensures SumStats(db.stats, CasesOn(db, d), direction) == Total(db.votes, OnDay(d, direction))
  {
    SumStatsIsTotal(db, CasesOn(db, d), direction);
    TotalSame(db.votes, InCases(CasesOn(db, d), direction), OnDay(d, direction));
  }

  lemma {:induction false} CoversSome(days: map<Day, DayRow>, first: Day, last: Day, d: Day)
    requires d in days && first <= d <= last
    ensures SumDays(days, first, last).covered > 0
    decreases last - d
  {
    if d < last {
      CoversSome(days, first, last - 1, d);
    }
  }

  /** The sealed dates of a span. */
  function SealedWithin(days: map<Day, DayRow>, first: Day, last: Day): set<Day> {
    set d | d in days && first <= d <= last
  }

  /** What a span covers is the number of its sealed dates. */
  lemma {:induction false} CoveredAreSealed(days: map<Day, DayRow>, first: Day, last: Day)
    ensures SumDays(days, first, last).covered == |SealedWithin(days, first, last)|
    decreases if last < first then 0 else last - first + 1
  {
    if last < first {
      assert SealedWithin(days, first, last) == {};
    } else {
      CoveredAreSealed(days, first, last - 1);
      var rest := SealedWithin(days, first, last - 1);
      assert SealedWithin(days, first, last) == if last in days then rest + {last} else rest;
    }
  }

  lemma {:induction false} SumDaysSame(a: map<Day, DayRow>, b: map<Day, DayRow>, first: Day, last: Day)
    requires forall d :: first <= d <= last ==> (d in a <==> d in b) && (d in a ==> a[d] == b[d])
    ensures SumDays(a, first, last) == SumDays(b, first, last)
    decreases if last < first then 0 else last - first + 1
  {
    if first <= last {
      SumDaysSame(a, b, first, last - 1);
    }
  }

  function Ranged(first: Day, last: Day, direction: Direction): Filter {
    (v: VoteRow) => first <= v.day <= last && v.direction == direction
  }

  /** A sealed period, being the sum of its sealed days, also states the ledger's counts over its whole range. */
  lemma {:induction false} PeriodCountsLedger(db: Db, days: map<Day, DayRow>, today: Day, version: nat, first: Day, last: Day, direction: Direction)
    requires LedgerAgrees(db) && DaysTrue(db, days, today, version)
    requires forall c :: c in db.cases && first <= db.cases[c].day <= last ==> db.cases[c].day in days
    ensures var sums := SumDays(days, first, last);
            (if direction == Up then sums.up else sums.down) == Total(db.votes, Ranged(first, last, direction))
    decreases if last < first then 0 else last - first + 1
  {
    if last < first {
      TotalNone(db.votes, Ranged(first, last, direction));
    } else {
      PeriodCountsLedger(db, days, today, version, first, last - 1, direction);
      TotalSplits(db.votes, OnDay(last, direction), Ranged(first, last - 1, direction), Ranged(first, last, direction));
      if last !in days {
        TotalNone(db.votes, OnDay(last, direction));
      }
    }
  }

  // ----- a rollover -----

  /** Sealing adds only true rows, changes none, and leaves nothing unsealed before its date. */
  lemma FinalizeIsSound(db: Db, periods: Periods, today: Day)
    requires LedgerAgrees(db) && ArchiveTrue(db, db.archive, periods, today)
    requires Partition(periods.week) && Partition(periods.month)
    requires forall c :: c in db.cases && db.cases[c].active ==> db.cases[c].day >= today
    ensures var a := Finalize(db, periods, today);
            ArchiveTrue(db, a, periods, today) && SealedBefore(db, a, periods, today) && Extends(db.archive, a)
            && a.version <= db.archive.version + 1
  {
    hide SealDays, SealPeriods, PendingPeriods, PendingDays, Partition, LedgerAgrees, DaysTrue, DaysExtend,
         DaysCovered, PeriodsTrue, PeriodsCovered, PeriodsExtend;
    var a := db.archive;
    var pending := PendingDays(db, today);
    var weeks := PendingPeriods(a.weeks, a.days.Keys + pending, periods.week, today);
    var months := PendingPeriods(a.months, a.days.Keys + pending, periods.month, today);
    var idle := pending == {} && weeks == {} && months == {};
    DaysSealed(db, pending, today);
    var days := if idle then a.days else SealDays(db, pending, a.version + 1);
    var version := if idle then a.version else a.version + 1;
    PeriodsSealed(db, days, pending, a.weeks, weeks, periods.week, today, version);
    PeriodsSealed(db, days, pending, a.months, months, periods.month, today, version);
  }

  lemma EndedIsPending(db: Db, today: Day, c: CaseId)
    requires c in db.cases && db.cases[c].day < today
    ensures db.cases[c].day in db.archive.days || db.cases[c].day in PendingDays(db, today)
  {
  }

  lemma PendingCase(db: Db, today: Day, d: Day) returns (c: CaseId)
    requires d in PendingDays(db, today)
    ensures c in db.cases && db.cases[c].day == d && d !in db.archive.days
  {
    c :| c in db.cases && db.cases[c].day < today && db.cases[c].day !in db.archive.days && db.cases[c].day == d;
  }

  lemma DaysSealed(db: Db, pending: set<Day>, today: Day)
    requires LedgerAgrees(db) && pending == PendingDays(db, today)
    requires forall c :: c in db.cases && db.cases[c].active ==> db.cases[c].day >= today
    requires DaysTrue(db, db.archive.days, today, db.archive.version)
    ensures var version := db.archive.version + 1;
            var days := SealDays(db, pending, version);
            && DaysTrue(db, days, today, version)
            && days.Keys == db.archive.days.Keys + pending
            && DaysExtend(db.archive.days, days, db.archive.version, version)
            && DaysCovered(db, days, today)
    ensures pending == {} ==>
              DaysExtend(db.archive.days, db.archive.days, db.archive.version, db.archive.version) && DaysCovered(db, db.archive.days, today)
  {
    hide DayTrue, LedgerAgrees, DaysTrue, DaysExtend, SealDay, PendingDays;
    DayRowsTrue(db, pending, today);
    DaySealExtends(db, pending);
    forall c | c in db.cases && db.cases[c].day < today ensures db.cases[c].day in db.archive.days.Keys + pending {
      EndedIsPending(db, today, c);
    }
  }

  lemma DaySealExtends(db: Db, pending: set<Day>)
    requires forall d :: d in pending ==> d !in db.archive.days
    ensures DaysExtend(db.archive.days, SealDays(db, pending, db.archive.version + 1), db.archive.version, db.archive.version + 1)
    ensures DaysExtend(db.archive.days, db.archive.days, db.archive.version, db.archive.version)
  {
  }

  lemma DayRowsTrue(db: Db, pending: set<Day>, today: Day)
    requires LedgerAgrees(db) && pending == PendingDays(db, today)
    requires forall c :: c in db.cases && db.cases[c].active ==> db.cases[c].day >= today
    requires DaysTrue(db, db.archive.days, today, db.archive.version)
    ensures DaysTrue(db, SealDays(db, pending, db.archive.version + 1), today, db.archive.version + 1)
    ensures forall d :: d in pending ==> d !in db.archive.days
  {
    hide LedgerAgrees, SealDay;
    var version := db.archive.version + 1;
    var days := SealDays(db, pending, version);
    forall d | d in days ensures d < today && DayTrue(db, d, days[d], version) {
      if d in pending {
        NewDay(db, d, today);
      }
    }
  }

  lemma NewDay(db: Db, d: Day, today: Day)
    requires LedgerAgrees(db) && d in PendingDays(db, today)
    requires forall c :: c in db.cases && db.cases[c].active ==> db.cases[c].day >= today
    ensures d < today && DayTrue(db, d, SealDay(db, d, db.archive.version + 1), db.archive.version + 1)
  {
    DaySumIsTotal(db, d, Up);
    DaySumIsTotal(db, d, Down);
    var c := PendingCase(db, today, d);
    assert c in CasesOn(db, d);
  }

  lemma PeriodsSealed(db: Db, days: map<Day, DayRow>, pending: set<Day>, rows: map<Day, PeriodRow>, starts: set<Day>,
                      period: Day -> Span, today: Day, version: nat)
    requires Partition(period) && pending == PendingDays(db, today)
    requires PeriodsTrue(db, db.archive.days, rows, period, today, db.archive.version)
    requires starts == PendingPeriods(rows, db.archive.days.Keys + pending, period, today)
    requires db.archive.version <= version && (starts != {} ==> db.archive.version < version)
    requires days.Keys == db.archive.days.Keys + pending
    requires DaysExtend(db.archive.days, days, db.archive.version, version) && DaysCovered(db, days, today)
    ensures var sealed := SealPeriods(rows, starts, days, db.votes, period, version);
            && PeriodsTrue(db, days, sealed, period, today, version)
            && PeriodsCovered(days, sealed, period, today)
            && PeriodsExtend(rows, sealed, db.archive.version, version)
            && (starts == {} ==> sealed == rows)
  {
    hide DaysExtend, DaysCovered, PeriodTrue, SealPeriod, PendingDays, PeriodsTrue, PeriodsExtend;
    PeriodRowsTrue(db, days, pending, rows, starts, period, today, version);
    SealNothing(rows, days, db.votes, period, version);
    SealExtends(rows, starts, days, db.votes, period, db.archive.version, version);
    var sealed := SealPeriods(rows, starts, days, db.votes, period, version);
    forall d | d in days && period(d).end < today ensures period(d).start in sealed {
      if period(d).start !in rows {
        assert period(d).start in starts;
      }
    }
  }

  lemma SealExtends(rows: map<Day, PeriodRow>, starts: set<Day>, days: map<Day, DayRow>, votes: seq<VoteRow>, period: Day -> Span,
                    before: nat, version: nat)
    requires forall s :: s in rows ==> s !in starts
    requires starts != {} ==> before < version
    ensures PeriodsExtend(rows, SealPeriods(rows, starts, days, votes, period, version), before, version)
  {
  }

  lemma SealNothing(rows: map<Day, PeriodRow>, days: map<Day, DayRow>, votes: seq<VoteRow>, period: Day -> Span, version: nat)
    ensures SealPeriods(rows, {}, days, votes, period, version) == rows
  {
    hide SealPeriod;
    var none := map s: Day | s in {} :: SealPeriod(days, votes, period(s), version);
    assert none == map[];
  }

  lemma PeriodRowsTrue(db: Db, days: map<Day, DayRow>, pending: set<Day>, rows: map<Day, PeriodRow>, starts: set<Day>,
                       period: Day -> Span, today: Day, version: nat)
    requires Partition(period) && pending == PendingDays(db, today)
    requires PeriodsTrue(db, db.archive.days, rows, period, today, db.archive.version)
    requires starts == PendingPeriods(rows, db.archive.days.Keys + pending, period, today)
    requires db.archive.version <= version && (starts != {} ==> db.archive.version < version)
    requires days.Keys == db.archive.days.Keys + pending
    requires DaysExtend(db.archive.days, days, db.archive.version, version) && DaysCovered(db, days, today)
    ensures PeriodsTrue(db, days, SealPeriods(rows, starts, days, db.votes, period, version), period, today, version)
  {
    hide Partition, PendingDays, PendingPeriods, DaysExtend, DaysCovered, PeriodTrue, SealPeriod;
    var sealed := SealPeriods(rows, starts, days, db.votes, period, version);
    forall s | s in sealed ensures sealed[s].end < today && PeriodTrue(db, days, s, sealed[s], period, version) {
      if s in starts {
        NewPeriod(db, days, pending, rows, starts, period, today, version, s);
      } else {
        OldPeriod(db, days, pending, s, rows[s], period, today, version);
      }
    }
  }

  lemma NewPeriod(db: Db, days: map<Day, DayRow>, pending: set<Day>, rows: map<Day, PeriodRow>, starts: set<Day>,
                  period: Day -> Span, today: Day, version: nat, s: Day)
    requires Partition(period) && s in starts && db.archive.version < version
    requires starts == PendingPeriods(rows, db.archive.days.Keys + pending, period, today)
    requires DaysCovered(db, days, today) && days.Keys == db.archive.days.Keys + pending
    ensures SealPeriod(days, db.votes, period(s), version).end < today
    ensures PeriodTrue(db, days, s, SealPeriod(days, db.votes, period(s), version), period, version)
  {
    var d :| d in db.archive.days.Keys + pending && period(d).end < today && period(d).start == s;
    assert period(d).start <= s <= period(d).end;
    assert period(s) == period(d);
    assert period(d).start <= d <= period(d).end;
    CoversSome(days, period(s).start, period(s).end, d);
  }

  lemma OldPeriod(db: Db, days: map<Day, DayRow>, pending: set<Day>, s: Day, row: PeriodRow, period: Day -> Span, today: Day, version: nat)
    requires pending == PendingDays(db, today) && db.archive.version <= version
    requires PeriodTrue(db, db.archive.days, s, row, period, db.archive.version)
    requires days.Keys == db.archive.days.Keys + pending
    requires DaysExtend(db.archive.days, days, db.archive.version, version)
    ensures PeriodTrue(db, days, s, row, period, version)
  {
    forall d | s <= d <= row.end
      ensures (d in db.archive.days <==> d in days) && (d in db.archive.days ==> db.archive.days[d] == days[d])
    {
      if d in pending {
        var c := PendingCase(db, today, d);
      }
    }
    SumDaysSame(db.archive.days, days, s, row.end);
  }

  // ----- everything else that happens -----

  ghost predicate OutsidePeriods(rows: map<Day, PeriodRow>, d: Day) {
    forall s :: s in rows ==> !(s <= d <= rows[s].end)
  }

  /** No sealed row speaks about the date. */
  ghost predicate Unsealed(a: Database.Archive, d: Day) {
    d !in a.days && OutsidePeriods(a.weeks, d) && OutsidePeriods(a.months, d)
  }

  /** The ledger changed at most on one date. */
  ghost predicate SameVotesOutside(a: seq<VoteRow>, b: seq<VoteRow>, day: Day) {
    && (forall d, direction :: d != day ==> Total(a, OnDay(d, direction)) == Total(b, OnDay(d, direction)))
    && (forall first, last :: !(first <= day <= last) ==> Voters(a, Between(first, last)) == Voters(b, Between(first, last)))
  }

  /** Cases changed at most on one date, except that cases may have been closed. */
  ghost predicate SameCasesOutside(a: map<CaseId, CaseRow>, b: map<CaseId, CaseRow>, day: Day) {
    && (forall c :: c in a && a[c].day != day ==> c in b && b[c].day == a[c].day && (b[c].active ==> a[c].active))
    && (forall c :: c in b && b[c].day != day ==> c in a && b[c].day == a[c].day)
  }

  /** A change on an unsealed date disturbs nothing that is sealed. */
  lemma ArchiveUndisturbed(db: Db, after: Db, a: Database.Archive, periods: Periods, today: Day, later: Day, day: Day)
    requires ArchiveTrue(db, a, periods, today) && today <= later && Unsealed(a, day)
    requires SameVotesOutside(db.votes, after.votes, day) && SameCasesOutside(db.cases, after.cases, day)
    ensures ArchiveTrue(after, a, periods, later)
  {
    forall d | d in a.days ensures DayTrue(after, d, a.days[d], a.version) {
      DayUndisturbed(db, after, d, a.days[d], a.version, day);
    }
    PeriodsUndisturbed(db, after, a.days, a.weeks, periods.week, today, later, a.version, day);
    PeriodsUndisturbed(db, after, a.days, a.months, periods.month, today, later, a.version, day);
  }

  lemma DayUndisturbed(db: Db, after: Db, d: Day, row: DayRow, version: nat, day: Day)
    requires DayTrue(db, d, row, version) && d != day
    requires SameVotesOutside(db.votes, after.votes, day) && SameCasesOutside(db.cases, after.cases, day)
    ensures DayTrue(after, d, row, version)
  {
    assert CasesOn(after, d) == CasesOn(db, d);
    assert Voters(db.votes, Between(d, d)) == Voters(after.votes, Between(d, d));
  }

  lemma PeriodsUndisturbed(db: Db, after: Db, days: map<Day, DayRow>, rows: map<Day, PeriodRow>, period: Day -> Span,
                           today: Day, later: Day, version: nat, day: Day)
    requires PeriodsTrue(db, days, rows, period, today, version) && today <= later && OutsidePeriods(rows, day)
    requires SameVotesOutside(db.votes, after.votes, day) && SameCasesOutside(db.cases, after.cases, day)
    ensures PeriodsTrue(after, days, rows, period, later, version)
  {
    forall s | s in rows ensures PeriodTrue(after, days, s, rows[s], period, version) {
      assert Voters(db.votes, Between(s, rows[s].end)) == Voters(after.votes, Between(s, rows[s].end));
    }
  }

  lemma AppendOutside(votes: seq<VoteRow>, v: VoteRow)
    ensures SameVotesOutside(votes, votes + [v], v.day)
  {
    forall d, direction | d != v.day ensures Total(votes, OnDay(d, direction)) == Total(votes + [v], OnDay(d, direction)) {
      TotalAppend(votes, v, OnDay(d, direction));
    }
    forall first, last | !(first <= v.day <= last) ensures Voters(votes, Between(first, last)) == Voters(votes + [v], Between(first, last)) {
      VotersAppend(votes, v, Between(first, last));
    }
  }

  lemma DeleteOutside(votes: seq<VoteRow>, day: Day)
    ensures SameVotesOutside(votes, Kept(votes, NotOn(day)), day)
  {
    forall d, direction | d != day ensures Total(votes, OnDay(d, direction)) == Total(Kept(votes, NotOn(day)), OnDay(d, direction)) {
      TotalKept(votes, NotOn(day), OnDay(d, direction));
    }
    forall first, last | !(first <= day <= last) ensures Voters(votes, Between(first, last)) == Voters(Kept(votes, NotOn(day)), Between(first, last)) {
      VotersKept(votes, NotOn(day), Between(first, last));
    }
  }
}
