/** Delta sync against the sealed archive: whatever mixture of full and delta responses a host gets, and however many it
    loses, its cache holds exactly the sealed rows up to its cursor. */
module HistorySync {
  import opened Common
  import opened Ledger
  import opened Database
  import Sealing = Archive
  import opened History
  import opened VoteResponse
  import Liangzi
  import Consistency
  import AuthorityRuns

  function StateOf(up: nat, down: nat, policy: Liangzi.Policy): Liangzi.State {
    var state := Liangzi.DeriveState(up, down, policy);
    if state.Ok? then state.value else Liangzi.Waiting
  }

  function DerivedOf(up: nat, down: nat, voters: nat, policy: Liangzi.Policy): Derived {
    Derived(up, down, voters, up + down, RatioOf(up, up + down), RatioOf(down, up + down), StateOf(up, down, policy))
  }

  function DayEntry(d: Day, row: DayRow, policy: Liangzi.Policy): Entry {
    Entry(d, d, row.caseCount, row.version, DerivedOf(row.up, row.down, row.uniqueVoters, policy))
  }

  function PeriodEntry(s: Day, row: PeriodRow, policy: Liangzi.Policy): Entry {
    Entry(s, row.end, row.coveredDays, row.version, DerivedOf(row.up, row.down, row.uniqueVoters, policy))
  }

  /** The rows of one table with a version in (after, upto]. */
  function DaySlice(days: map<Day, DayRow>, after: int, upto: int, policy: Liangzi.Policy): map<Day, Entry> {
    map d | d in days && after < days[d].version <= upto :: DayEntry(d, days[d], policy)
  }

  function PeriodSlice(rows: map<Day, PeriodRow>, after: int, upto: int, policy: Liangzi.Policy): map<Day, Entry> {
    map s | s in rows && after < rows[s].version <= upto :: PeriodEntry(s, rows[s], policy)
  }

  ghost predicate Shows(entries: seq<Entry>, rows: map<Day, Entry>) {
    Ascending(entries) && ByKey(entries) == rows
  }

  /** A response to `after_version`: the rows beyond the cursor, up to the version it states, in date order. */
  ghost predicate Answers(r: Cache, a: Database.Archive, after: int, policy: Liangzi.Policy) {
    && Shows(r.days, DaySlice(a.days, after, r.version, policy))
    && Shows(r.weeks, PeriodSlice(a.weeks, after, r.version, policy))
    && Shows(r.months, PeriodSlice(a.months, after, r.version, policy))
  }

  /** The cursor of a full request: every row lies beyond it. */
  const FULL := -1

  /** The cache holds exactly the rows up to its cursor. */
  ghost predicate Exact(c: Cache, a: Database.Archive, policy: Liangzi.Policy) {
    0 <= c.version <= a.version && Answers(c, a, FULL, policy)
  }

  ghost predicate VersionsOk(a: Database.Archive) {
    && (forall d :: d in a.days ==> 0 < a.days[d].version <= a.version)
    && (forall s :: s in a.weeks ==> 0 < a.weeks[s].version <= a.version)
    && (forall s :: s in a.months ==> 0 < a.months[s].version <= a.version)
  }

  /** Sealing more leaves every answer about earlier versions as it was. */
  lemma AnswersLater(r: Cache, a: Database.Archive, b: Database.Archive, after: int, policy: Liangzi.Policy)
    requires Answers(r, a, after, policy) && r.version <= a.version && Sealing.Extends(a, b)
    ensures Answers(r, b, after, policy)
  {
    hide Ascending, ByKey, DayEntry, PeriodEntry;
    DaySliceLater(a.days, b.days, a.version, b.version, after, r.version, policy);
    PeriodSliceLater(a.weeks, b.weeks, a.version, b.version, after, r.version, policy);
    PeriodSliceLater(a.months, b.months, a.version, b.version, after, r.version, policy);
  }

  lemma DaySliceLater(a: map<Day, DayRow>, b: map<Day, DayRow>, v: nat, w: nat, after: int, upto: int, policy: Liangzi.Policy)
    requires Sealing.DaysExtend(a, b, v, w) && upto <= v
    ensures DaySlice(a, after, upto, policy) == DaySlice(b, after, upto, policy)
  {
    hide DayEntry;
  }

  lemma PeriodSliceLater(a: map<Day, PeriodRow>, b: map<Day, PeriodRow>, v: nat, w: nat, after: int, upto: int, policy: Liangzi.Policy)
    requires Sealing.PeriodsExtend(a, b, v, w) && upto <= v
    ensures PeriodSlice(a, after, upto, policy) == PeriodSlice(b, after, upto, policy)
  {
    hide PeriodEntry;
  }

  // ----- merging -----

  /** What MergeHistoryArchive promises, as a relation. */
  ghost predicate MergesTo(current: Option<Cache>, incoming: Cache, full: bool, merged: Cache) {
    && (current.None? || full ==> merged == incoming)
    && (current.Some? && !full && incoming.version < current.value.version ==> merged == current.value)
    && (current.Some? && !full && incoming.version >= current.value.version ==>
          && merged == incoming.(days := merged.days, weeks := merged.weeks, months := merged.months)
          && Shows(merged.days, ByKey(current.value.days) + ByKey(incoming.days))
          && Shows(merged.weeks, ByKey(current.value.weeks) + ByKey(incoming.weeks))
          && Shows(merged.months, ByKey(current.value.months) + ByKey(incoming.months)))
  }

  lemma DaySlicesJoin(days: map<Day, DayRow>, from: int, mid: int, after: int, upto: int, policy: Liangzi.Policy)
    requires after <= mid <= upto && from <= after
    ensures DaySlice(days, from, mid, policy) + DaySlice(days, after, upto, policy) == DaySlice(days, from, upto, policy)
  {
    hide DayEntry;
  }

  lemma PeriodSlicesJoin(rows: map<Day, PeriodRow>, from: int, mid: int, after: int, upto: int, policy: Liangzi.Policy)
    requires after <= mid <= upto && from <= after
    ensures PeriodSlice(rows, from, mid, policy) + PeriodSlice(rows, after, upto, policy) == PeriodSlice(rows, from, upto, policy)
  {
    hide PeriodEntry;
  }

  /** A delta from any cursor the cache has reached, or a full answer, keeps the cache exact. */
  lemma MergeKeepsExact(c: Cache, incoming: Cache, full: bool, merged: Cache, a: Database.Archive, after: int, policy: Liangzi.Policy)
    requires Exact(c, a, policy) && Answers(incoming, a, after, policy) && 0 <= incoming.version <= a.version
    requires if full then after == FULL else FULL <= after <= c.version
    requires MergesTo(Some(c), incoming, full, merged)
    ensures Exact(merged, a, policy) && (!full ==> merged.version >= c.version)
  {
    hide Ascending, ByKey, DaySlice, PeriodSlice;
    if !full && incoming.version >= c.version {
      DaySlicesJoin(a.days, FULL, c.version, after, incoming.version, policy);
      PeriodSlicesJoin(a.weeks, FULL, c.version, after, incoming.version, policy);
      PeriodSlicesJoin(a.months, FULL, c.version, after, incoming.version, policy);
    }
  }

  /** Merging the delta from its own cursor gives a cache the very rows a full fetch would have given it. */
  lemma DeltaRefinesFull(c: Cache, delta: Cache, whole: Cache, merged: Cache, a: Database.Archive, policy: Liangzi.Policy)
    requires Exact(c, a, policy) && Answers(delta, a, c.version, policy) && Answers(whole, a, FULL, policy)
    requires delta.version == a.version && whole.version == a.version && MergesTo(Some(c), delta, false, merged)
    ensures merged.days == whole.days && merged.weeks == whole.weeks && merged.months == whole.months
  {
    hide DaySlice, PeriodSlice, Ascending, ByKey;
    MergeKeepsExact(c, delta, false, merged, a, c.version, policy);
    AscendingIsUnique(merged.days, whole.days);
    AscendingIsUnique(merged.weeks, whole.weeks);
    AscendingIsUnique(merged.months, whole.months);
  }

  // ----- whole runs -----

  /** One request at a time: its cursor, and the answer that is on its way. */
  datatype Flight = Flight(after: int, full: bool, answer: Cache)

  datatype World = World(archive: Database.Archive, cache: Option<Cache>, flight: Option<Flight>)

  /** The archive grows; the host asks, full the first time and from its cursor afterwards; the answer arrives, or is lost and
      marks the cache stale (an empty one when there is none). */
  ghost predicate Step(w: World, v: World, policy: Liangzi.Policy) {
    || (Sealing.Extends(w.archive, v.archive) && VersionsOk(v.archive) && v.cache == w.cache && v.flight == w.flight)
    || (&& w.flight.None? && v.flight.Some? && v.archive == w.archive && v.cache == w.cache
        && v.flight.value.full == w.cache.None?
        && v.flight.value.after == (if w.cache.None? then FULL else w.cache.value.version)
        && v.flight.value.answer.version == w.archive.version
        && Answers(v.flight.value.answer, w.archive, v.flight.value.after, policy))
    || (&& w.flight.Some? && v.flight.None? && v.archive == w.archive && v.cache.Some?
        && MergesTo(w.cache, w.flight.value.answer, w.flight.value.full, v.cache.value))
    || (&& w.flight.Some? && v.flight.None? && v.archive == w.archive && v.cache.Some?
        && v.cache.value == (if w.cache.Some? then w.cache.value.(stale := true)
                             else Cache(0, v.cache.value.today, true, [], [], [], 0, 0)))
  }

  ghost predicate Synced(w: World, policy: Liangzi.Policy) {
    && VersionsOk(w.archive)
    && (w.cache.Some? ==> Exact(w.cache.value, w.archive, policy))
    && (w.flight.Some? ==>
          && 0 <= w.flight.value.answer.version <= w.archive.version
          && Answers(w.flight.value.answer, w.archive, w.flight.value.after, policy)
          && w.flight.value.full == w.cache.None?
          && w.flight.value.after == (if w.cache.None? then FULL else w.cache.value.version))
  }

  lemma EmptyIsExact(a: Database.Archive, today: Day, policy: Liangzi.Policy)
    requires VersionsOk(a)
    ensures Exact(Cache(0, today, true, [], [], [], 0, 0), a, policy)
  {
    hide DayEntry, PeriodEntry;
  }

  lemma StaleIsExact(c: Cache, a: Database.Archive, policy: Liangzi.Policy)
    requires Exact(c, a, policy)
    ensures Exact(c.(stale := true), a, policy)
  {
    hide DaySlice, PeriodSlice, Shows;
  }

  lemma StepKeepsSynced(w: World, v: World, policy: Liangzi.Policy)
    requires Synced(w, policy) && Step(w, v, policy)
    ensures Synced(v, policy)
  {
    hide DaySlice, PeriodSlice, Shows, VersionsOk, Sealing.DaysExtend, Sealing.PeriodsExtend;
    if Sealing.Extends(w.archive, v.archive) && VersionsOk(v.archive) && v.cache == w.cache && v.flight == w.flight {
      if w.cache.Some? {
        AnswersLater(w.cache.value, w.archive, v.archive, FULL, policy);
      }
      if w.flight.Some? {
        AnswersLater(w.flight.value.answer, w.archive, v.archive, w.flight.value.after, policy);
      }
    } else if v.flight.None? && w.flight.Some? {
      if w.cache.None? {
        EmptyIsExact(w.archive, v.cache.value.today, policy);
      } else {
        StaleIsExact(w.cache.value, w.archive, policy);
        if MergesTo(w.cache, w.flight.value.answer, w.flight.value.full, v.cache.value) {
          MergeKeepsExact(w.cache.value, w.flight.value.answer, false, v.cache.value, w.archive, w.flight.value.after, policy);
        }
      }
    }
  }

  /** Over any run of growth, requests, answers and losses, the cache is exact at every moment. */
  lemma {:induction false} CacheStaysExact(run: seq<World>, policy: Liangzi.Policy, k: nat)
    requires run != [] && Synced(run[0], policy) && forall i :: 0 <= i < |run| - 1 ==> Step(run[i], run[i + 1], policy)
    requires k < |run|
    ensures Synced(run[k], policy) && (run[k].cache.Some? ==> Exact(run[k].cache.value, run[k].archive, policy))
  {
    hide Step, Exact, Answers, VersionsOk;
    if k > 0 {
      CacheStaysExact(run, policy, k - 1);
      StepKeepsSynced(run[k - 1], run[k], policy);
    }
  }

  // ----- what an exact cache tells -----

  /** The entry states these counts, their total and ratios, and the tier they derive. */
  predicate Tells(e: Entry, up: nat, down: nat, voters: nat, policy: Liangzi.Policy) {
    && e.result.up == up && e.result.down == down && e.result.voters == voters && e.result.total == up + down
    && Liangzi.DeriveState(up, down, policy) == Liangzi.Ok(e.result.state)
    && (if up + down == 0 then e.result.upRatio.Null? && e.result.downRatio.Null?
        else e.result.upRatio.Of? && e.result.upRatio.value * (up + down) as real == up as real
             && e.result.downRatio.Of? && e.result.downRatio.value * (up + down) as real == down as real)
  }

  /** A cached day states the ledger's counts for its date, and the number of its cases. */
  ghost predicate TellsDay(e: Entry, db: Db, policy: Liangzi.Policy) {
    && e.end == e.key && e.covers == |Sealing.CasesOn(db, e.key)|
    && Tells(e, Total(db.votes, OnDay(e.key, Up)), Total(db.votes, OnDay(e.key, Down)), |Voters(db.votes, Between(e.key, e.key))|, policy)
  }

  /** A cached week or month states the ledger's counts over its whole span, and the number of its sealed dates. */
  ghost predicate TellsPeriod(e: Entry, db: Db, period: Day -> Sealing.Span, policy: Liangzi.Policy) {
    && period(e.key) == Sealing.Span(e.key, e.end) && e.covers == |Sealing.SealedWithin(db.archive.days, e.key, e.end)|
    && Tells(e, Total(db.votes, Sealing.Ranged(e.key, e.end, Up)), Total(db.votes, Sealing.Ranged(e.key, e.end, Down)),
             |Voters(db.votes, Between(e.key, e.end))|, policy)
  }

  predicate HasRow(entries: seq<Entry>, d: Day) {
    exists e :: e in entries && e.key == d
  }

  lemma ShownAre(entries: seq<Entry>, rows: map<Day, Entry>)
    requires Shows(entries, rows)
    ensures forall e :: e in entries ==> e.key in rows && rows[e.key] == e
    ensures forall d :: d in rows ==> HasRow(entries, d)
  {
    hide ByKey, Ascending;
    forall e | e in entries ensures e.key in rows && rows[e.key] == e {
      var k :| 0 <= k < |entries| && entries[k] == e;
      ByKeyAt(entries, k);
    }
    forall d | d in rows ensures HasRow(entries, d) {
      ByKeyHolds(entries, d);
    }
  }

  lemma DerivedTells(e: Entry, up: nat, down: nat, voters: nat, policy: Liangzi.Policy)
    requires Liangzi.ValidPolicy(policy) && e.result == DerivedOf(up, down, voters, policy)
    ensures Tells(e, up, down, voters, policy)
  {
    hide Liangzi.ValidPolicy, Liangzi.DeriveState;
    StateExists(up, down, policy);
  }

  lemma DaysTold(w: AuthorityRuns.World, periods: Sealing.Periods, d: Day, policy: Liangzi.Policy)
    requires AuthorityRuns.Invariant(w, periods) && Liangzi.ValidPolicy(policy) && d in w.db.archive.days
    ensures TellsDay(DayEntry(d, w.db.archive.days[d], policy), w.db, policy)
  {
    hide Consistency.Consistent, Sealing.PeriodsTrue, AuthorityRuns.CheckedTrue, AuthorityRuns.CasesUntil, DerivedOf, Tells, Total, Voters,
         Sealing.CasesOn, Liangzi.ValidPolicy;
    var row := w.db.archive.days[d];
    assert Sealing.DayTrue(w.db, d, row, w.db.archive.version);
    DerivedTells(DayEntry(d, row, policy), row.up, row.down, row.uniqueVoters, policy);
  }

  lemma PeriodsTold(db: Db, today: Day, rows: map<Day, PeriodRow>, period: Day -> Sealing.Span, s: Day, policy: Liangzi.Policy)
    requires Consistency.Consistent(db, today) && Sealing.DaysTrue(db, db.archive.days, today, db.archive.version)
    requires Sealing.PeriodsTrue(db, db.archive.days, rows, period, today, db.archive.version)
    requires Liangzi.ValidPolicy(policy) && s in rows
    ensures TellsPeriod(PeriodEntry(s, rows[s], policy), db, period, policy)
  {
    hide Consistency.Consistent, Sealing.DaysTrue, DerivedOf, Tells, Total, Voters, Sealing.SealPeriod, Liangzi.ValidPolicy;
    assert Sealing.PeriodTrue(db, db.archive.days, s, rows[s], period, db.archive.version);
    AuthorityRuns.SealedPeriodCounts(db, rows, period, today, s);
    DerivedTells(PeriodEntry(s, rows[s], policy), rows[s].up, rows[s].down, rows[s].uniqueVoters, policy);
  }

  /** An exact cache tells the ledger: each of its rows states the ledger's own counts for its date or span, with their ratios and
      tier, and it has a row for everything sealed up to its cursor. */
  lemma CacheTellsTheLedger(c: Cache, w: AuthorityRuns.World, periods: Sealing.Periods, policy: Liangzi.Policy)
    requires AuthorityRuns.Invariant(w, periods) && Liangzi.ValidPolicy(policy) && Exact(c, w.db.archive, policy)
    ensures forall e :: e in c.days ==> e.key in w.db.archive.days && TellsDay(e, w.db, policy)
    ensures forall e :: e in c.weeks ==> e.key in w.db.archive.weeks && TellsPeriod(e, w.db, periods.week, policy)
    ensures forall e :: e in c.months ==> e.key in w.db.archive.months && TellsPeriod(e, w.db, periods.month, policy)
    ensures forall d :: d in w.db.archive.days && w.db.archive.days[d].version <= c.version ==> HasRow(c.days, d)
    ensures forall s :: s in w.db.archive.weeks && w.db.archive.weeks[s].version <= c.version ==> HasRow(c.weeks, s)
    ensures forall s :: s in w.db.archive.months && w.db.archive.months[s].version <= c.version ==> HasRow(c.months, s)
  {
    hide Shows, TellsDay, TellsPeriod, DayEntry, PeriodEntry, AuthorityRuns.Invariant, Liangzi.ValidPolicy;
    var a := w.db.archive;
    ShownAre(c.days, DaySlice(a.days, FULL, c.version, policy));
    ShownAre(c.weeks, PeriodSlice(a.weeks, FULL, c.version, policy));
    ShownAre(c.months, PeriodSlice(a.months, FULL, c.version, policy));
    forall d | d in a.days ensures TellsDay(DayEntry(d, a.days[d], policy), w.db, policy) {
      DaysTold(w, periods, d, policy);
    }
    forall s | s in a.weeks ensures TellsPeriod(PeriodEntry(s, a.weeks[s], policy), w.db, periods.week, policy) {
      SealedTablesTrue(w, periods);
      PeriodsTold(w.db, w.today, a.weeks, periods.week, s, policy);
    }
    forall s | s in a.months ensures TellsPeriod(PeriodEntry(s, a.months[s], policy), w.db, periods.month, policy) {
      SealedTablesTrue(w, periods);
      PeriodsTold(w.db, w.today, a.months, periods.month, s, policy);
    }
  }

  lemma SealedTablesTrue(w: AuthorityRuns.World, periods: Sealing.Periods)
    requires AuthorityRuns.Invariant(w, periods)
    ensures Consistency.Consistent(w.db, w.today) && Sealing.DaysTrue(w.db, w.db.archive.days, w.today, w.db.archive.version)
    ensures Sealing.PeriodsTrue(w.db, w.db.archive.days, w.db.archive.weeks, periods.week, w.today, w.db.archive.version)
    ensures Sealing.PeriodsTrue(w.db, w.db.archive.days, w.db.archive.months, periods.month, w.today, w.db.archive.version)
  {
    hide Consistency.Consistent, Sealing.DaysTrue, Sealing.PeriodsTrue;
  }

  // ----- what the authority serves, the host accepts -----

  lemma DerivedPasses(up: nat, down: nat, voters: nat, policy: Liangzi.Policy)
    requires voters <= up + down && Liangzi.ValidPolicy(policy)
    ensures DeriveArchiveResult(up, down, voters, policy) == Ok(DerivedOf(up, down, voters, policy))
       <==> IsCount(up) && IsCount(down) && IsCount(voters)
  {
    hide Liangzi.DeriveState;
    StateExists(up, down, policy);
  }

  /** A sealed day never counts more voters than sticks. */
  lemma DayVotersWithin(db: Db, today: Day, d: Day, version: nat)
    requires Consistency.Consistent(db, today) && d in db.archive.days && Sealing.DayTrue(db, d, db.archive.days[d], version)
    ensures db.archive.days[d].uniqueVoters <= db.archive.days[d].up + db.archive.days[d].down
  {
    hide Consistency.Consistent, Total, Voters, Sealing.CasesOn;
    PositiveVotes(db, today);
    VotersAtMostTotal(db.votes, Between(d, d));
    TotalSplits(db.votes, OnDay(d, Up), OnDay(d, Down), Between(d, d));
  }

  lemma PositiveVotes(db: Db, today: Day)
    requires Consistency.Consistent(db, today)
    ensures forall v :: v in db.votes ==> v.accepted >= 1
  {
    hide Consistency.CasesOk, Consistency.StatsOk, Consistency.ReceiptsOk, Consistency.IncenseOk, Consistency.UsedOk, Consistency.SnapshotsOk, KeysUnique;
    forall v | v in db.votes ensures v.accepted >= 1 {
      assert Consistency.VoteOk(db.cases, db.incense, db.receipts, v);
    }
  }

  lemma PeriodVotersWithin(db: Db, today: Day, row: PeriodRow, s: Day)
    requires Consistency.Consistent(db, today) && AuthorityRuns.PeriodCounts(db, row, s)
    ensures row.uniqueVoters <= row.up + row.down
  {
    hide Consistency.Consistent, Total, Voters, Sealing.SumDays;
    PositiveVotes(db, today);
    VotersAtMostTotal(db.votes, Between(s, row.end));
    TotalSplits(db.votes, Sealing.Ranged(s, row.end, Up), Sealing.Ranged(s, row.end, Down), Between(s, row.end));
  }

  /** The counts of an answer that JavaScript must be able to represent. */
  predicate Representable(r: Cache) {
    && IsCount(r.version) && IsCount(r.openWeek) && IsCount(r.openMonth)
    && EntriesSafe(r.days) && EntriesSafe(r.weeks) && EntriesSafe(r.months)
  }

  predicate EntrySafe(e: Entry) { IsCount(e.result.up) && IsCount(e.result.down) && IsCount(e.result.voters) && IsCount(e.covers) }

  predicate EntriesSafe(entries: seq<Entry>) { forall e :: e in entries ==> EntrySafe(e) }

  ghost predicate Servable(e: Entry, version: int, period: Day -> Sealing.Span, policy: Liangzi.Policy) {
    period(e.key) == Sealing.Span(e.key, e.end) && 1 <= e.covers && 1 <= e.version <= version
    && 0 <= e.result.up && 0 <= e.result.down && 0 <= e.result.voters <= e.result.up + e.result.down
    && e.result == DerivedOf(e.result.up, e.result.down, e.result.voters, policy)
  }

  lemma ServablePasses(e: Entry, version: int, period: Day -> Sealing.Span, policy: Liangzi.Policy)
    requires Servable(e, version, period, policy) && Liangzi.ValidPolicy(policy)
    ensures EntryOk(e, version, period, policy) <==> EntrySafe(e)
  {
    hide DerivedOf, DeriveArchiveResult;
    DerivedPasses(e.result.up, e.result.down, e.result.voters, policy);
  }

  lemma AscendingIsDistinct(entries: seq<Entry>)
    requires Ascending(entries)
    ensures Unique(entries)
  {
  }

  lemma ShownPasses(entries: seq<Entry>, rows: map<Day, Entry>, version: int, period: Day -> Sealing.Span, policy: Liangzi.Policy)
    requires Shows(entries, rows) && Liangzi.ValidPolicy(policy)
    requires forall d :: d in rows ==> Servable(rows[d], version, period, policy)
    ensures EntriesOk(entries, version, period, policy) <==> EntriesSafe(entries)
  {
    hide Servable, EntryOk, EntrySafe, ByKey, Ascending, Unique;
    AscendingIsDistinct(entries);
    forall e | e in entries ensures EntryOk(e, version, period, policy) <==> EntrySafe(e) {
      var k :| 0 <= k < |entries| && entries[k] == e;
      ByKeyAt(entries, k);
      ServablePasses(e, version, period, policy);
    }
  }

  lemma DaysServable(w: AuthorityRuns.World, periods: Sealing.Periods, after: int, policy: Liangzi.Policy, version: int)
    requires AuthorityRuns.Invariant(w, periods) && version == w.db.archive.version
    ensures forall d :: d in DaySlice(w.db.archive.days, after, version, policy) ==>
              Servable(DaySlice(w.db.archive.days, after, version, policy)[d], version, DaySpan, policy)
  {
    hide Consistency.Consistent, Sealing.PeriodsTrue, AuthorityRuns.CheckedTrue, AuthorityRuns.CasesUntil, DerivedOf, Total, Voters, Sealing.CasesOn;
    forall d | d in w.db.archive.days ensures Servable(DayEntry(d, w.db.archive.days[d], policy), version, DaySpan, policy) {
      assert Sealing.DayTrue(w.db, d, w.db.archive.days[d], w.db.archive.version);
      DayVotersWithin(w.db, w.today, d, w.db.archive.version);
      DerivedKeeps(w.db.archive.days[d].up, w.db.archive.days[d].down, w.db.archive.days[d].uniqueVoters, policy);
    }
  }

  lemma DerivedKeeps(up: nat, down: nat, voters: nat, policy: Liangzi.Policy)
    ensures var r := DerivedOf(up, down, voters, policy); r.up == up && r.down == down && r.voters == voters
  {
  }

  lemma PeriodsServable(db: Db, today: Day, rows: map<Day, PeriodRow>, period: Day -> Sealing.Span, after: int, policy: Liangzi.Policy)
    requires Consistency.Consistent(db, today) && Sealing.DaysTrue(db, db.archive.days, today, db.archive.version)
    requires Sealing.PeriodsTrue(db, db.archive.days, rows, period, today, db.archive.version)
    ensures var slice := PeriodSlice(rows, after, db.archive.version, policy);
            forall s :: s in slice ==> Servable(slice[s], db.archive.version, period, policy)
  {
    hide Consistency.Consistent, Sealing.DaysTrue, DerivedOf, Sealing.SealPeriod, AuthorityRuns.PeriodCounts;
    forall s | s in rows ensures Servable(PeriodEntry(s, rows[s], policy), db.archive.version, period, policy) {
      assert Sealing.PeriodTrue(db, db.archive.days, s, rows[s], period, db.archive.version);
      AuthorityRuns.SealedPeriodCounts(db, rows, period, today, s);
      PeriodVotersWithin(db, today, rows[s], s);
      DerivedKeeps(rows[s].up, rows[s].down, rows[s].uniqueVoters, policy);
    }
  }

  /** In every reachable state, the answer to any history request passes the host's validation unchanged exactly when its
      counts are safe integers. */
  lemma ServedArchivePasses(w: AuthorityRuns.World, periods: Sealing.Periods, after: int, r: Cache, full: bool, policy: Liangzi.Policy)
    requires AuthorityRuns.Invariant(w, periods) && Liangzi.ValidPolicy(policy)
    requires r.version == w.db.archive.version && Answers(r, w.db.archive, after, policy)
    ensures History.Parse(Print(r, full), periods, policy) == Ok((r, full)) <==> Representable(r)
  {
    hide Consistency.Consistent, Sealing.DaysTrue, Sealing.PeriodsTrue, AuthorityRuns.CheckedTrue, AuthorityRuns.CasesUntil, Shows,
         DaySlice, PeriodSlice, EntriesOk, EntriesSafe, Servable, History.Parse, Print;
    DaysServable(w, periods, after, policy, r.version);
    PeriodsServable(w.db, w.today, w.db.archive.weeks, periods.week, after, policy);
    PeriodsServable(w.db, w.today, w.db.archive.months, periods.month, after, policy);
    ShownPasses(r.days, DaySlice(w.db.archive.days, after, r.version, policy), r.version, DaySpan, policy);
    ShownPasses(r.weeks, PeriodSlice(w.db.archive.weeks, after, r.version, policy), r.version, periods.week, policy);
    ShownPasses(r.months, PeriodSlice(w.db.archive.months, after, r.version, policy), r.version, periods.month, policy);
    if WellFormed(r, periods, policy) {
      PrintParse(r, full, periods, policy);
    }
    if History.Parse(Print(r, full), periods, policy) == Ok((r, full)) {
      ParsePrint(Print(r, full), periods, policy);
    }
  }
}
