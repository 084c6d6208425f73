/** Delta sync against the authority's own runs. A history answer is four statements - day rows, week rows, month rows, the
    version - between which other processes may act. */
module HistoryRuns {
  import opened Common
  import opened Ledger
  import opened Database
  import opened History
  import opened HistorySync
  import Sealing = Archive
  import Liangzi
  import Consistency
  import Authority
  import AuthorityRuns

  type Sealed = Database.Archive

  /** An answer being read: the archives its statements have seen so far, the rows they gave, and whether the first one came
      after the day's rotation on a date. */
  datatype Reading = Reading(after: int, full: bool, seen: seq<Sealed>, draft: Cache, date: Day, rotated: bool)

  datatype System = System(authority: AuthorityRuns.World, cache: Option<Cache>, reading: Option<Reading>)

  function ArchiveOf(s: System): Sealed { s.authority.db.archive }

  /** Some process has rotated on the latest date, as every history request does before it reads. */
  ghost predicate RotatedToday(w: AuthorityRuns.World) {
    exists p :: p in w.checked && w.checked[p] == w.today
  }

  // ----- steps -----

  ghost predicate Acts(s: System, t: System, config: Config, periods: Sealing.Periods) {
    exists step :: AuthorityRuns.Possible(s.authority, config, step)
                && t == s.(authority := AuthorityRuns.Next(s.authority, config, periods, step))
  }

  /** The first request of a host is for everything, a later one goes on from its cursor. */
  ghost predicate Starts(s: System, t: System, policy: Liangzi.Policy) {
    && s.reading.None? && t.reading.Some? && t.authority == s.authority && t.cache == s.cache
    && var r := t.reading.value;
    && r.full == s.cache.None? && r.after == (if s.cache.None? then FULL else s.cache.value.version)
    && r.seen == [ArchiveOf(s)] && Shows(r.draft.days, DaySlice(ArchiveOf(s).days, r.after, ArchiveOf(s).version, policy))
    && r.date == s.authority.today && r.rotated == RotatedToday(s.authority)
  }

  ghost predicate ReadsOn(s: System, t: System, policy: Liangzi.Policy) {
    && s.reading.Some? && |s.reading.value.seen| < 4 && t.authority == s.authority && t.cache == s.cache
    && t.reading.Some?
    && var r, u, a := s.reading.value, t.reading.value, ArchiveOf(s);
    && u == r.(seen := r.seen + [a], draft := u.draft) && u.draft.days == r.draft.days
    && (if |r.seen| == 1 then Shows(u.draft.weeks, PeriodSlice(a.weeks, r.after, a.version, policy))
        else u.draft.weeks == r.draft.weeks)
    && (if |r.seen| == 2 then Shows(u.draft.months, PeriodSlice(a.months, r.after, a.version, policy))
        else |r.seen| == 3 ==> u.draft.months == r.draft.months)
    && (|r.seen| == 3 ==> u.draft.version == a.version)
  }

  ghost predicate Receives(s: System, t: System) {
    && s.reading.Some? && |s.reading.value.seen| == 4 && t.reading.None? && t.authority == s.authority
    && t.cache.Some? && MergesTo(s.cache, s.reading.value.draft, s.reading.value.full, t.cache.value)
  }

  /** A request that fails marks the cache stale; without one an empty cache stands in. */
  ghost predicate Loses(s: System, t: System) {
    && s.reading.Some? && t.reading.None? && t.authority == s.authority && t.cache.Some?
    && t.cache.value == (if s.cache.Some? then s.cache.value.(stale := true)
                         else Cache(0, t.cache.value.today, true, [], [], [], 0, 0))
  }

  ghost predicate Step(s: System, t: System, config: Config, periods: Sealing.Periods, policy: Liangzi.Policy) {
    Acts(s, t, config, periods) || Starts(s, t, policy) || ReadsOn(s, t, policy) || Receives(s, t) || Loses(s, t)
  }

  // ----- what every step keeps -----

  ghost predicate Chain(seen: seq<Sealed>, a: Sealed) {
    && (forall i, j :: 0 <= i <= j < |seen| ==> Sealing.Extends(seen[i], seen[j]))
    && (forall i :: 0 <= i < |seen| ==> Sealing.Extends(seen[i], a) && VersionsOk(seen[i]))
  }

  /** The draft holds what each statement saw. */
  ghost predicate DraftOk(r: Reading, policy: Liangzi.Policy) {
    && 1 <= |r.seen| <= 4
    && Shows(r.draft.days, DaySlice(r.seen[0].days, r.after, r.seen[0].version, policy))
    && (|r.seen| > 1 ==> Shows(r.draft.weeks, PeriodSlice(r.seen[1].weeks, r.after, r.seen[1].version, policy)))
    && (|r.seen| > 2 ==> Shows(r.draft.months, PeriodSlice(r.seen[2].months, r.after, r.seen[2].version, policy)))
    && (|r.seen| > 3 ==> r.draft.version == r.seen[3].version)
  }

  ghost predicate CursorOk(s: System) {
    && (s.cache.Some? ==> 0 <= s.cache.value.version <= ArchiveOf(s).version)
    && (s.reading.Some? ==>
          && s.reading.value.full == s.cache.None?
          && s.reading.value.after == (if s.cache.None? then FULL else s.cache.value.version)
          && s.reading.value.seen != [] && s.reading.value.after <= s.reading.value.seen[0].version)
  }

  /** As long as the date stands still after a rotation, nothing is sealed. */
  ghost predicate DateOk(s: System) {
    s.reading.Some? ==>
      && s.reading.value.date <= s.authority.today
      && (s.reading.value.rotated && s.reading.value.date == s.authority.today ==>
            RotatedToday(s.authority) && forall i :: 0 <= i < |s.reading.value.seen| ==> s.reading.value.seen[i] == ArchiveOf(s))
  }

  ghost predicate Kept(s: System, periods: Sealing.Periods, policy: Liangzi.Policy) {
    && AuthorityRuns.Invariant(s.authority, periods) && CursorOk(s) && DateOk(s)
    && (s.reading.Some? ==> Chain(s.reading.value.seen, ArchiveOf(s)) && DraftOk(s.reading.value, policy))
  }

  lemma TrueVersions(w: AuthorityRuns.World, periods: Sealing.Periods)
    requires AuthorityRuns.Invariant(w, periods)
    ensures VersionsOk(w.db.archive)
  {
    hide Consistency.Consistent, AuthorityRuns.CheckedTrue, AuthorityRuns.CasesUntil, AuthorityRuns.TodayOpen, Total, Voters, Sealing.CasesOn,
         Sealing.SealPeriod;
    var db := w.db;
    forall d | d in db.archive.days ensures 0 < db.archive.days[d].version <= db.archive.version {
      assert Sealing.DayTrue(db, d, db.archive.days[d], db.archive.version);
    }
    forall s | s in db.archive.weeks ensures 0 < db.archive.weeks[s].version <= db.archive.version {
      assert Sealing.PeriodTrue(db, db.archive.days, s, db.archive.weeks[s], periods.week, db.archive.version);
    }
    forall s | s in db.archive.months ensures 0 < db.archive.months[s].version <= db.archive.version {
      assert Sealing.PeriodTrue(db, db.archive.days, s, db.archive.months[s], periods.month, db.archive.version);
    }
  }

  // ----- nothing is sealed twice on a date -----

  /** With nothing before a date unsealed, finalizing for it changes nothing. */
  lemma NothingLeftToSeal(db: Db, periods: Sealing.Periods, today: Day)
    requires Sealing.SealedBefore(db, db.archive, periods, today)
    ensures Sealing.Finalize(db, periods, today) == db.archive
  {
    hide Sealing.SealDays, Sealing.SealPeriods;
    assert Sealing.PendingDays(db, today) == {};
    assert db.archive.days.Keys + {} == db.archive.days.Keys;
    assert Sealing.PendingPeriods(db.archive.weeks, db.archive.days.Keys, periods.week, today) == {};
    assert Sealing.PendingPeriods(db.archive.months, db.archive.days.Keys, periods.month, today) == {};
  }

  lemma RotateAgainSealsNothing(db: Db, config: Config, periods: Sealing.Periods, id: CaseId, title: string, today: Day, now: int)
    requires Sealing.SealedBefore(db, db.archive, periods, today)
    ensures var r := Authority.Rotate(db, config, periods, id, title, today, now); r.Some? ==> r.value.archive == db.archive
  {
    hide Sealing.Finalize, HasActive, Sealing.PeriodsCovered;
    var closed := CloseCasesBefore(db, today);
    AuthorityRuns.CloseFrame(db, today);
    NothingLeftToSeal(closed, periods, today);
  }

  /** A step that stays on a date that was rotated to leaves the archive as it is. */
  lemma SameDateSealsNothing(w: AuthorityRuns.World, config: Config, periods: Sealing.Periods, step: AuthorityRuns.Step)
    requires AuthorityRuns.Invariant(w, periods) && AuthorityRuns.Possible(w, config, step) && config.tokenPerIncense > 0
    requires RotatedToday(w) && AuthorityRuns.Next(w, config, periods, step).today == w.today
    ensures var after := AuthorityRuns.Next(w, config, periods, step); after.db.archive == w.db.archive && RotatedToday(after)
  {
    hide Consistency.Consistent, Sealing.ArchiveTrue, AuthorityRuns.CasesUntil, AuthorityRuns.TodayOpen, Sealing.SealedBefore,
         AuthorityRuns.Disturbs, Authority.Rotate, AuthorityRuns.Skips;
    var after := AuthorityRuns.Next(w, config, periods, step);
    var p :| p in w.checked && w.checked[p] == w.today;
    if step.EnsureCase? {
      RotateAgainSealsNothing(w.db, config, periods, step.id, step.title, step.day, step.now);
      assert p in after.checked && after.checked[p] == after.today;
    } else {
      var day := AuthorityRuns.StepDisturbs(w, config, periods, step);
      DisturbedSameArchive(w.db, after.db, periods, w.today, after.today, day);
    }
  }

  lemma DisturbedSameArchive(db: Db, after: Db, periods: Sealing.Periods, today: Day, later: Day, day: Day)
    requires AuthorityRuns.Disturbs(db, after, periods, today, later, day)
    ensures after.archive == db.archive
  {
  }

  // ----- every step keeps the account of the reads -----

  lemma ChainGrows(seen: seq<Sealed>, a: Sealed, b: Sealed)
    requires Chain(seen, a) && Sealing.Extends(a, b)
    ensures Chain(seen, b)
  {
    hide Sealing.Extends, VersionsOk;
    forall i | 0 <= i < |seen| ensures Sealing.Extends(seen[i], b) {
      AuthorityRuns.ExtendsTransitive(seen[i], a, b);
    }
  }

  lemma ChainAppends(seen: seq<Sealed>, a: Sealed)
    requires Chain(seen, a) && VersionsOk(a)
    ensures Chain(seen + [a], a)
  {
    hide Sealing.Extends, VersionsOk;
    AuthorityRuns.ExtendsItself(a);
  }

  lemma ActKeeps(s: System, t: System, config: Config, periods: Sealing.Periods, policy: Liangzi.Policy)
    requires Kept(s, periods, policy) && Acts(s, t, config, periods) && config.tokenPerIncense > 0
    requires Sealing.Partition(periods.week) && Sealing.Partition(periods.month)
    ensures Kept(t, periods, policy) && Sealing.Extends(ArchiveOf(s), ArchiveOf(t)) && t.cache == s.cache && t.reading == s.reading
  {
    hide AuthorityRuns.Invariant, AuthorityRuns.Next, AuthorityRuns.Possible, Sealing.Partition, Chain, DraftOk, RotatedToday,
         Sealing.DaysExtend, Sealing.PeriodsExtend;
    var step :| AuthorityRuns.Possible(s.authority, config, step)
             && t == s.(authority := AuthorityRuns.Next(s.authority, config, periods, step));
    AuthorityRuns.StepKeepsInvariant(s.authority, config, periods, step);
    if s.reading.Some? {
      ChainGrows(s.reading.value.seen, ArchiveOf(s), ArchiveOf(t));
      if s.reading.value.rotated && s.reading.value.date == t.authority.today {
        SameDateSealsNothing(s.authority, config, periods, step);
      }
    }
  }

  lemma StartKeeps(s: System, t: System, periods: Sealing.Periods, policy: Liangzi.Policy)
    requires Kept(s, periods, policy) && Starts(s, t, policy)
    ensures Kept(t, periods, policy)
  {
    hide AuthorityRuns.Invariant, RotatedToday, Shows, DaySlice, PeriodSlice, VersionsOk, Sealing.Extends;
    TrueVersions(s.authority, periods);
    AuthorityRuns.ExtendsItself(ArchiveOf(s));
  }

  lemma ReadKeeps(s: System, t: System, periods: Sealing.Periods, policy: Liangzi.Policy)
    requires Kept(s, periods, policy) && ReadsOn(s, t, policy)
    ensures Kept(t, periods, policy)
  {
    hide AuthorityRuns.Invariant, RotatedToday, Shows, DaySlice, PeriodSlice, VersionsOk, Sealing.Extends, Chain;
    TrueVersions(s.authority, periods);
    ChainAppends(s.reading.value.seen, ArchiveOf(s));
  }

  lemma VersionRead(s: System, periods: Sealing.Periods, policy: Liangzi.Policy)
    requires Kept(s, periods, policy) && s.reading.Some? && |s.reading.value.seen| == 4
    ensures s.reading.value.after <= s.reading.value.seen[0].version <= s.reading.value.seen[3].version == s.reading.value.draft.version
    ensures s.reading.value.draft.version <= ArchiveOf(s).version
  {
    hide AuthorityRuns.Invariant, Shows, DaySlice, PeriodSlice, VersionsOk, Sealing.DaysExtend, Sealing.PeriodsExtend, RotatedToday;
    assert Sealing.Extends(s.reading.value.seen[0], s.reading.value.seen[3]);
  }

  lemma EndKeeps(s: System, t: System, periods: Sealing.Periods, policy: Liangzi.Policy)
    requires Kept(s, periods, policy) && (Receives(s, t) || Loses(s, t))
    ensures Kept(t, periods, policy)
  {
    hide AuthorityRuns.Invariant, Chain, DraftOk, RotatedToday, Shows, ByKey;
    if Receives(s, t) {
      VersionRead(s, periods, policy);
    }
  }

  lemma StepKeeps(s: System, t: System, config: Config, periods: Sealing.Periods, policy: Liangzi.Policy)
    requires Kept(s, periods, policy) && Step(s, t, config, periods, policy) && config.tokenPerIncense > 0
    requires Sealing.Partition(periods.week) && Sealing.Partition(periods.month)
    ensures Kept(t, periods, policy)
  {
    hide Kept, Acts, Starts, ReadsOn, Receives, Loses, Sealing.Partition;
    if Acts(s, t, config, periods) {
      ActKeeps(s, t, config, periods, policy);
    } else if Starts(s, t, policy) {
      StartKeeps(s, t, periods, policy);
    } else if ReadsOn(s, t, policy) {
      ReadKeeps(s, t, periods, policy);
    } else {
      EndKeeps(s, t, periods, policy);
    }
  }

  // ----- when an answer is whole -----

  /** No row of a table was added between its own statement and the version's. */
  ghost predicate Whole(r: Reading) {
    && |r.seen| == 4
    && NoLater(r.seen[0].days, r.seen[3].days) && NoLater(r.seen[1].weeks, r.seen[3].weeks) && NoLater(r.seen[2].months, r.seen[3].months)
  }

  predicate NoLater<T>(early: map<Day, T>, late: map<Day, T>) {
    forall d :: d in late ==> d in early
  }

  lemma DaySlicesAgree(x: Sealed, y: Sealed, after: int, policy: Liangzi.Policy)
    requires Sealing.Extends(x, y) && VersionsOk(x) && VersionsOk(y) && after <= x.version
    ensures DaySlice(x.days, after, x.version, policy) == DaySlice(y.days, after, y.version, policy) <==> NoLater(x.days, y.days)
  {
    hide DayEntry, Sealing.PeriodsExtend;
    var older, newer := DaySlice(x.days, after, x.version, policy), DaySlice(y.days, after, y.version, policy);
    forall d ensures (d in newer <==> d in older) <==> (d in y.days ==> d in x.days) {
    }
    if NoLater(x.days, y.days) {
      assert forall d :: d in newer ==> d in older && newer[d] == older[d];
    }
  }

  lemma PeriodSlicesAgree(x: map<Day, PeriodRow>, y: map<Day, PeriodRow>, v: nat, w: nat, after: int, policy: Liangzi.Policy)
    requires Sealing.PeriodsExtend(x, y, v, w) && after <= v <= w
    requires (forall s :: s in x ==> x[s].version <= v) && forall s :: s in y ==> y[s].version <= w
    ensures PeriodSlice(x, after, v, policy) == PeriodSlice(y, after, w, policy) <==> NoLater(x, y)
  {
    hide PeriodEntry;
    var older, newer := PeriodSlice(x, after, v, policy), PeriodSlice(y, after, w, policy);
    forall s ensures (s in newer <==> s in older) <==> (s in y ==> s in x) {
    }
    if NoLater(x, y) {
      assert forall s :: s in newer ==> s in older && newer[s] == older[s];
    }
  }

  lemma ShowsOnly(entries: seq<Entry>, rows: map<Day, Entry>, others: map<Day, Entry>)
    requires Shows(entries, rows)
    ensures Shows(entries, others) <==> rows == others
  {
  }

  /** What was read over four archives answers the request as of the last one exactly when it is whole. */
  lemma WholeExactly(r: Reading, a: Sealed, policy: Liangzi.Policy)
    requires |r.seen| == 4 && Chain(r.seen, a) && DraftOk(r, policy) && r.after <= r.seen[0].version
    ensures Answers(r.draft, r.seen[3], r.after, policy) <==> Whole(r)
  {
    hide Shows, DaySlice, PeriodSlice;
    assert Sealing.Extends(r.seen[0], r.seen[3]) && Sealing.Extends(r.seen[1], r.seen[3]) && Sealing.Extends(r.seen[2], r.seen[3]);
    assert Sealing.Extends(r.seen[0], r.seen[1]) && Sealing.Extends(r.seen[0], r.seen[2]);
    var x, y, z, w := r.seen[0], r.seen[1], r.seen[2], r.seen[3];
    DaySlicesAgree(x, w, r.after, policy);
    PeriodSlicesAgree(y.weeks, w.weeks, y.version, w.version, r.after, policy);
    PeriodSlicesAgree(z.months, w.months, z.version, w.version, r.after, policy);
    ShowsOnly(r.draft.days, DaySlice(x.days, r.after, x.version, policy), DaySlice(w.days, r.after, w.version, policy));
    ShowsOnly(r.draft.weeks, PeriodSlice(y.weeks, r.after, y.version, policy), PeriodSlice(w.weeks, r.after, w.version, policy));
    ShowsOnly(r.draft.months, PeriodSlice(z.months, r.after, z.version, policy), PeriodSlice(w.months, r.after, w.version, policy));
  }

  /** A reading that stays on the date it began on, after that date's rotation, is whole. */
  lemma OneDateIsWhole(s: System, periods: Sealing.Periods, policy: Liangzi.Policy)
    requires Kept(s, periods, policy) && s.reading.Some? && |s.reading.value.seen| == 4
    requires s.reading.value.rotated && s.reading.value.date == s.authority.today
    ensures Whole(s.reading.value)
  {
    hide AuthorityRuns.Invariant, Chain, DraftOk, RotatedToday;
  }

  // ----- what an answer that is not whole costs -----

  /** A sealed row at or below the cursor is not in the cache. */
  ghost predicate Lacks(c: Cache, a: Sealed) {
    || (exists d :: d in a.days && a.days[d].version <= c.version && d !in ByKey(c.days))
    || LacksPeriod(c.weeks, a.weeks, c.version)
    || LacksPeriod(c.months, a.months, c.version)
  }

  ghost predicate LacksPeriod(entries: seq<Entry>, rows: map<Day, PeriodRow>, version: int) {
    exists s :: s in rows && rows[s].version <= version && s !in ByKey(entries)
  }

  lemma ExactLacksNothing(c: Cache, a: Sealed, policy: Liangzi.Policy)
    requires VersionsOk(a)
    ensures Exact(c, a, policy) ==> !Lacks(c, a)
  {
    hide DayEntry, PeriodEntry, Ascending;
    if Exact(c, a, policy) {
      assert ByKey(c.days) == DaySlice(a.days, FULL, c.version, policy);
      assert ByKey(c.weeks) == PeriodSlice(a.weeks, FULL, c.version, policy);
      assert ByKey(c.months) == PeriodSlice(a.months, FULL, c.version, policy);
    }
  }

  /** A merged table holds no key that neither side held. */
  ghost predicate HoldsAtMost(merged: seq<Entry>, current: map<Day, Entry>, incoming: seq<Entry>) {
    ByKey(merged).Keys <= current.Keys + ByKey(incoming).Keys
  }

  function Rows(c: Option<Cache>, table: Cache -> seq<Entry>): map<Day, Entry> {
    if c.None? then map[] else ByKey(table(c.value))
  }

  function Days(c: Cache): seq<Entry> { c.days }

  function Weeks(c: Cache): seq<Entry> { c.weeks }

  function Months(c: Cache): seq<Entry> { c.months }

  lemma MergeHolds(s: System, t: System)
    requires Receives(s, t) && s.reading.value.full == s.cache.None?
    requires s.cache.Some? ==> s.reading.value.draft.version >= s.cache.value.version
    ensures var d, m := s.reading.value.draft, t.cache.value;
            && m.version == d.version && HoldsAtMost(m.days, Rows(s.cache, Days), d.days)
            && HoldsAtMost(m.weeks, Rows(s.cache, Weeks), d.weeks) && HoldsAtMost(m.months, Rows(s.cache, Months), d.months)
  {
    hide ByKey, Ascending;
  }

  /** A day that came after the day rows were read is in neither side. */
  lemma LateDayMissed(early: Sealed, last: Sealed, now: Sealed, current: map<Day, Entry>, cursor: int, draft: seq<Entry>, merged: seq<Entry>,
                      after: int, policy: Liangzi.Policy, d: Day)
    requires Sealing.Extends(early, last) && Sealing.Extends(last, now) && d in last.days && d !in early.days
    requires cursor <= early.version && current.Keys <= DaySlice(now.days, FULL, cursor, policy).Keys
    requires Shows(draft, DaySlice(early.days, after, early.version, policy)) && HoldsAtMost(merged, current, draft)
    ensures d in now.days && now.days[d].version <= last.version && d !in ByKey(merged)
  {
    hide DayEntry, Sealing.PeriodsExtend, Ascending;
  }

  lemma LatePeriodMissed(early: map<Day, PeriodRow>, last: map<Day, PeriodRow>, now: map<Day, PeriodRow>, u: nat, v: nat, w: nat,
                         current: map<Day, Entry>, cursor: int, draft: seq<Entry>, merged: seq<Entry>, after: int,
                         policy: Liangzi.Policy)
    requires Sealing.PeriodsExtend(early, last, u, v) && Sealing.PeriodsExtend(last, now, v, w) && !NoLater(early, last)
    requires cursor <= u && current.Keys <= PeriodSlice(now, FULL, cursor, policy).Keys
    requires Shows(draft, PeriodSlice(early, after, u, policy)) && HoldsAtMost(merged, current, draft)
    ensures LacksPeriod(merged, now, v)
  {
    hide PeriodEntry, Ascending;
    var s :| s in last && s !in early;
    assert s in now && now[s].version <= v && s !in ByKey(merged);
  }

  lemma ExactHolds(c: Option<Cache>, a: Sealed, policy: Liangzi.Policy)
    requires c.Some? ==> Exact(c.value, a, policy)
    ensures var cursor := if c.Some? then c.value.version else FULL;
            && Rows(c, Days).Keys <= DaySlice(a.days, FULL, cursor, policy).Keys
            && Rows(c, Weeks).Keys <= PeriodSlice(a.weeks, FULL, cursor, policy).Keys
            && Rows(c, Months).Keys <= PeriodSlice(a.months, FULL, cursor, policy).Keys
  {
    hide DaySlice, PeriodSlice, ByKey, Ascending;
  }

  lemma NotWholeLacks(s: System, t: System, periods: Sealing.Periods, policy: Liangzi.Policy)
    requires Kept(s, periods, policy) && Receives(s, t) && !Whole(s.reading.value)
    requires s.cache.Some? ==> Exact(s.cache.value, ArchiveOf(s), policy)
    ensures Lacks(t.cache.value, ArchiveOf(t))
  {
    hide AuthorityRuns.Invariant, RotatedToday, Shows, DaySlice, PeriodSlice, Sealing.DaysExtend, Sealing.PeriodsExtend, LacksPeriod,
         HoldsAtMost, Exact, MergesTo, Rows, ByKey, VersionsOk;
    var r, m, b := s.reading.value, t.cache.value, ArchiveOf(s);
    var cursor := if s.cache.Some? then s.cache.value.version else FULL;
    VersionRead(s, periods, policy);
    MergeHolds(s, t);
    ExactHolds(s.cache, b, policy);
    var x, y, z, w := r.seen[0], r.seen[1], r.seen[2], r.seen[3];
    assert Sealing.Extends(x, w) && Sealing.Extends(y, w) && Sealing.Extends(z, w) && Sealing.Extends(w, b);
    assert Sealing.Extends(x, y) && Sealing.Extends(x, z);
    if !NoLater(x.days, w.days) {
      var d :| d in w.days && d !in x.days;
      LateDayMissed(x, w, b, Rows(s.cache, Days), cursor, r.draft.days, m.days, r.after, policy, d);
    } else if !NoLater(y.weeks, w.weeks) {
      LatePeriodMissed(y.weeks, w.weeks, b.weeks, y.version, w.version, b.version, Rows(s.cache, Weeks), cursor, r.draft.weeks, m.weeks,
                       r.after, policy);
    } else {
      LatePeriodMissed(z.months, w.months, b.months, z.version, w.version, b.version, Rows(s.cache, Months), cursor, r.draft.months,
                       m.months, r.after, policy);
    }
  }

  /** Merging an answer into an exact cache, or into none, gives an exact cache exactly when the answer was whole: when no row
      of a table was sealed between the statement that read it and the one that read the version. */
  lemma ReceiveExactly(s: System, t: System, periods: Sealing.Periods, policy: Liangzi.Policy)
    requires Kept(s, periods, policy) && Receives(s, t)
    requires s.cache.Some? ==> Exact(s.cache.value, ArchiveOf(s), policy)
    ensures Exact(t.cache.value, ArchiveOf(t), policy) <==> Whole(s.reading.value)
    ensures Lacks(t.cache.value, ArchiveOf(t)) <==> !Whole(s.reading.value)
  {
    hide AuthorityRuns.Invariant, RotatedToday, Exact, Lacks, Answers, DraftOk, MergesTo, Whole, VersionsOk;
    var r, b := s.reading.value, ArchiveOf(s);
    TrueVersions(s.authority, periods);
    VersionRead(s, periods, policy);
    if Whole(r) {
      WholeExactly(r, b, policy);
      AnswersLater(r.draft, r.seen[3], b, r.after, policy);
      WholeIsMerged(s, t, policy);
    } else {
      NotWholeLacks(s, t, periods, policy);
    }
    ExactLacksNothing(t.cache.value, b, policy);
  }

  lemma WholeIsMerged(s: System, t: System, policy: Liangzi.Policy)
    requires Receives(s, t) && Answers(s.reading.value.draft, ArchiveOf(s), s.reading.value.after, policy)
    requires 0 <= s.reading.value.draft.version <= ArchiveOf(s).version && CursorOk(s)
    requires s.cache.Some? ==> Exact(s.cache.value, ArchiveOf(s), policy)
    ensures Exact(t.cache.value, ArchiveOf(s), policy)
  {
    hide DaySlice, PeriodSlice, Shows;
    var r := s.reading.value;
    if s.cache.Some? {
      MergeKeepsExact(s.cache.value, r.draft, false, t.cache.value, ArchiveOf(s), r.after, policy);
    }
  }

  // ----- whole runs -----

  lemma LacksLater(c: Cache, a: Sealed, b: Sealed)
    requires Lacks(c, a) && Sealing.Extends(a, b)
    ensures Lacks(c, b)
  {
    hide ByKey;
    if d :| d in a.days && a.days[d].version <= c.version && d !in ByKey(c.days) {
      assert d in b.days && b.days[d].version <= c.version;
    } else if LacksPeriod(c.weeks, a.weeks, c.version) {
      var s :| s in a.weeks && a.weeks[s].version <= c.version && s !in ByKey(c.weeks);
      assert s in b.weeks && b.weeks[s].version <= c.version;
    } else {
      var s :| s in a.months && a.months[s].version <= c.version && s !in ByKey(c.months);
      assert s in b.months && b.months[s].version <= c.version;
    }
  }

  /** A delta brings nothing at or below its cursor. */
  lemma DeltaBringsNoOldDay(early: Sealed, now: Sealed, entries: seq<Entry>, after: int, policy: Liangzi.Policy, d: Day)
    requires Sealing.Extends(early, now) && Shows(entries, DaySlice(early.days, after, early.version, policy))
    requires d in now.days && now.days[d].version <= after
    ensures d !in ByKey(entries)
  {
    hide DayEntry, Sealing.PeriodsExtend, Ascending;
  }

  lemma DeltaBringsNoOldPeriod(early: map<Day, PeriodRow>, now: map<Day, PeriodRow>, v: nat, w: nat, entries: seq<Entry>, after: int,
                               policy: Liangzi.Policy, s: Day)
    requires Sealing.PeriodsExtend(early, now, v, w) && Shows(entries, PeriodSlice(early, after, v, policy))
    requires s in now && now[s].version <= after
    ensures s !in ByKey(entries)
  {
    hide PeriodEntry, Ascending;
  }

  lemma ReceiveStillLacks(s: System, t: System, periods: Sealing.Periods, policy: Liangzi.Policy)
    requires Kept(s, periods, policy) && Receives(s, t) && s.cache.Some? && Lacks(s.cache.value, ArchiveOf(s))
    ensures Lacks(t.cache.value, ArchiveOf(t))
  {
    hide AuthorityRuns.Invariant, RotatedToday, Shows, DaySlice, PeriodSlice, Sealing.DaysExtend, Sealing.PeriodsExtend, MergesTo, ByKey,
         VersionsOk;
    var r, c, m, b := s.reading.value, s.cache.value, t.cache.value, ArchiveOf(s);
    VersionRead(s, periods, policy);
    MergeHolds(s, t);
    assert Sealing.Extends(r.seen[0], b) && Sealing.Extends(r.seen[1], b) && Sealing.Extends(r.seen[2], b);
    if d :| d in b.days && b.days[d].version <= c.version && d !in ByKey(c.days) {
      DeltaBringsNoOldDay(r.seen[0], b, r.draft.days, r.after, policy, d);
      assert d !in ByKey(m.days);
    } else if LacksPeriod(c.weeks, b.weeks, c.version) {
      var d :| d in b.weeks && b.weeks[d].version <= c.version && d !in ByKey(c.weeks);
      DeltaBringsNoOldPeriod(r.seen[1].weeks, b.weeks, r.seen[1].version, b.version, r.draft.weeks, r.after, policy, d);
      assert d !in ByKey(m.weeks) && b.weeks[d].version <= m.version;
    } else {
      var d :| d in b.months && b.months[d].version <= c.version && d !in ByKey(c.months);
      DeltaBringsNoOldPeriod(r.seen[2].months, b.months, r.seen[2].version, b.version, r.draft.months, r.after, policy, d);
      assert d !in ByKey(m.months) && b.months[d].version <= m.version;
    }
  }

  /** A row the cache lacks below its cursor stays missing: every later delta starts beyond it. */
  lemma LacksForEver(s: System, t: System, config: Config, periods: Sealing.Periods, policy: Liangzi.Policy)
    requires Kept(s, periods, policy) && Step(s, t, config, periods, policy) && config.tokenPerIncense > 0
    requires Sealing.Partition(periods.week) && Sealing.Partition(periods.month)
    requires s.cache.Some? && Lacks(s.cache.value, ArchiveOf(s))
    ensures t.cache.Some? && Lacks(t.cache.value, ArchiveOf(t))
  {
    hide Kept, Acts, Lacks, ReadsOn, Starts, MergesTo, Sealing.Partition, Sealing.Extends;
    if Acts(s, t, config, periods) {
      ActKeeps(s, t, config, periods, policy);
      LacksLater(s.cache.value, ArchiveOf(s), ArchiveOf(t));
    } else if Receives(s, t) {
      ReceiveStillLacks(s, t, periods, policy);
    } else if Loses(s, t) {
      StaleLacks(s.cache.value, ArchiveOf(s));
    } else {
      ReadsLeaveCache(s, t, policy);
    }
  }

  lemma StaleLacks(c: Cache, a: Sealed)
    requires Lacks(c, a)
    ensures Lacks(c.(stale := true), a)
  {
    hide ByKey;
  }

  lemma ReadsLeaveCache(s: System, t: System, policy: Liangzi.Policy)
    requires Starts(s, t, policy) || ReadsOn(s, t, policy)
    ensures t.cache == s.cache && t.authority == s.authority
  {
  }

  /** Any step other than a receipt leaves an exact cache exact. */
  lemma OtherStepsKeepExact(s: System, t: System, config: Config, periods: Sealing.Periods, policy: Liangzi.Policy)
    requires Kept(s, periods, policy) && Step(s, t, config, periods, policy) && !Receives(s, t) && config.tokenPerIncense > 0
    requires Sealing.Partition(periods.week) && Sealing.Partition(periods.month)
    requires s.cache.Some? ==> Exact(s.cache.value, ArchiveOf(s), policy)
    ensures t.cache.Some? ==> Exact(t.cache.value, ArchiveOf(t), policy)
  {
    hide Kept, Acts, ReadsOn, Starts, Receives, Sealing.Partition, Sealing.Extends, Answers;
    if Acts(s, t, config, periods) {
      ActKeeps(s, t, config, periods, policy);
      if s.cache.Some? {
        ExactLater(s.cache.value, ArchiveOf(s), ArchiveOf(t), policy);
      }
    } else if Loses(s, t) {
      if s.cache.Some? {
        StaleIsExact(s.cache.value, ArchiveOf(s), policy);
      } else {
        KeptVersions(s, periods, policy);
        EmptyIsExact(ArchiveOf(s), t.cache.value.today, policy);
      }
    } else {
      ReadsLeaveCache(s, t, policy);
    }
  }

  lemma KeptVersions(s: System, periods: Sealing.Periods, policy: Liangzi.Policy)
    requires Kept(s, periods, policy)
    ensures VersionsOk(ArchiveOf(s))
  {
    hide AuthorityRuns.Invariant, VersionsOk;
    TrueVersions(s.authority, periods);
  }

  lemma ExactLater(c: Cache, a: Sealed, b: Sealed, policy: Liangzi.Policy)
    requires Exact(c, a, policy) && Sealing.Extends(a, b)
    ensures Exact(c, b, policy)
  {
    hide Answers, Sealing.DaysExtend, Sealing.PeriodsExtend;
    AnswersLater(c, a, b, FULL, policy);
  }

  ghost predicate IsRun(run: seq<System>, config: Config, periods: Sealing.Periods, policy: Liangzi.Policy) {
    run != [] && forall i :: 0 <= i < |run| - 1 ==> Step(run[i], run[i + 1], config, periods, policy)
  }

  /** Every answer merged before position k was whole. */
  ghost predicate AllWhole(run: seq<System>, k: nat)
    requires k < |run|
  {
    forall i :: 0 <= i < k ==> MergesWhole(run[i], run[i + 1])
  }

  ghost predicate MergesWhole(s: System, t: System) {
    Receives(s, t) ==> Whole(s.reading.value)
  }

  /** Over any run of the authority's processes, reads, answers and losses: as long as every merged answer was whole the cache
      holds exactly the sealed rows up to its cursor, and from the first one that was not it lacks a row for ever. */
  lemma {:induction false} CacheFollowsAnswers(run: seq<System>, config: Config, periods: Sealing.Periods, policy: Liangzi.Policy, k: nat)
    requires IsRun(run, config, periods, policy) && k < |run| && config.tokenPerIncense > 0
    requires Sealing.Partition(periods.week) && Sealing.Partition(periods.month)
    requires Kept(run[0], periods, policy) && (run[0].cache.Some? ==> Exact(run[0].cache.value, ArchiveOf(run[0]), policy))
    ensures Kept(run[k], periods, policy)
    ensures if AllWhole(run, k) then run[k].cache.Some? ==> Exact(run[k].cache.value, ArchiveOf(run[k]), policy)
            else run[k].cache.Some? && Lacks(run[k].cache.value, ArchiveOf(run[k]))
    decreases k
  {
    hide Kept, Step, Exact, Lacks, Whole, Sealing.Partition, MergesTo, MergesWhole;
    if k > 0 {
      CacheFollowsAnswers(run, config, periods, policy, k - 1);
      var s, t := run[k - 1], run[k];
      assert Step(s, t, config, periods, policy);
      StepKeeps(s, t, config, periods, policy);
      assert AllWhole(run, k) <==> AllWhole(run, k - 1) && MergesWhole(s, t);
      if !AllWhole(run, k - 1) {
        LacksForEver(s, t, config, periods, policy);
      } else if Receives(s, t) {
        ReceiveExactly(s, t, periods, policy);
        ReceivedWhole(s, t);
      } else {
        OtherStepsKeepExact(s, t, config, periods, policy);
        ReceivedWhole(s, t);
      }
    }
  }

  lemma ReceivedWhole(s: System, t: System)
    ensures MergesWhole(s, t) <==> (Receives(s, t) ==> Whole(s.reading.value))
  {
  }

  // ----- a reachable run -----

  const SMALL := Config(10, 0, 0, 1000)
  const BLANK := Cache(0, 0, false, [], [], [], 0, 0)

  /** A case of date 0, and the rotation to date 1 that seals it. */
  lemma RotationSealsTheDay(periods: Sealing.Periods)
    requires Sealing.Partition(periods.week) && Sealing.Partition(periods.month)
    ensures var start := AuthorityRuns.Start(0);
            var begun := AuthorityRuns.Next(start, SMALL, periods, AuthorityRuns.Publish(0, "a", "", 0));
            var rotated := AuthorityRuns.Next(begun, SMALL, periods, AuthorityRuns.EnsureCase(0, 1, "b", "", 1));
            && AuthorityRuns.Invariant(start, periods) && begun.today == 0 && begun.db.archive == Database.Archive.Archive(0, map[], map[], map[])
            && 0 in rotated.db.archive.days && rotated.db.archive.days[0].version <= rotated.db.archive.version
  {
    hide AuthorityRuns.Invariant, Sealing.Partition, Authority.PublishCase, Authority.Rotate, Sealing.PeriodsCovered, HasActive;
    var start := AuthorityRuns.Start(0);
    var publish, rotate := AuthorityRuns.Publish(0, "a", "", 0), AuthorityRuns.EnsureCase(0, 1, "b", "", 1);
    AuthorityRuns.StartHolds(periods, 0);
    var begun := AuthorityRuns.Next(start, SMALL, periods, publish);
    AuthorityRuns.StepKeepsInvariant(start, SMALL, periods, publish);
    FirstCase(periods);
    AuthorityRuns.RefusedExactly(begun, SMALL, periods, 1, "b", "", 1);
    AuthorityRuns.EnsureLeavesNothingUnsealed(begun, SMALL, periods, 0, 1, "b", "", 1);
    AuthorityRuns.RotateOnlyOpens(begun.db, SMALL, periods, "b", "", 1, 1);
    AuthorityRuns.StepKeepsInvariant(begun, SMALL, periods, rotate);
    var rotated := AuthorityRuns.Next(begun, SMALL, periods, rotate);
    assert "a" in rotated.db.cases && rotated.db.cases["a"].day == 0;
    TrueVersions(rotated, periods);
  }

  lemma FirstCase(periods: Sealing.Periods)
    ensures var begun := AuthorityRuns.Next(AuthorityRuns.Start(0), SMALL, periods, AuthorityRuns.Publish(0, "a", "", 0));
            && begun.today == 0 && begun.checked == map[] && begun.db.archive == EMPTY_DB.archive
            && begun.db.cases == map["a" := CaseRow("a", 0, "", true, 10, 0)]
  {
    assert !HasActive(CloseCasesBefore(EMPTY_DB, 0), 0);
    assert ResetUsedFor(CloseCasesBefore(EMPTY_DB, 0), 0) == EMPTY_DB;
  }

  /** The loss is reachable: the rows are read, another process rotates to the next date and seals the day, the version is
      read. The first full answer lacks the day, and no later delta will bring it. */
  lemma LateSealIsLost(periods: Sealing.Periods, policy: Liangzi.Policy)
    requires Sealing.Partition(periods.week) && Sealing.Partition(periods.month)
    ensures exists run: seq<System> :: && IsRun(run, SMALL, periods, policy) && run[0] == System(AuthorityRuns.Start(0), None, None)
                          && Kept(run[0], periods, policy)
                          && run[|run| - 1].cache.Some? && Lacks(run[|run| - 1].cache.value, ArchiveOf(run[|run| - 1]))
  {
    hide AuthorityRuns.Invariant, AuthorityRuns.Next, RotatedToday, Sealing.Partition, VersionsOk, DayEntry, PeriodEntry;
    RotationSealsTheDay(periods);
    var publish, rotate := AuthorityRuns.Publish(0, "a", "", 0), AuthorityRuns.EnsureCase(0, 1, "b", "", 1);
    var start := AuthorityRuns.Start(0);
    var begun := AuthorityRuns.Next(start, SMALL, periods, publish);
    var rotated := AuthorityRuns.Next(begun, SMALL, periods, rotate);
    var a, b := begun.db.archive, rotated.db.archive;
    var r := Reading(FULL, true, [a], BLANK, 0, RotatedToday(begun));
    var last := r.(seen := [a, a, a, b], draft := BLANK.(version := b.version));
    var s0, s1, s2 := System(start, None, None), System(begun, None, None), System(begun, None, Some(r));
    var s3, s4 := System(begun, None, Some(r.(seen := [a, a]))), System(begun, None, Some(r.(seen := [a, a, a])));
    var s5, s6 := s4.(authority := rotated), System(rotated, None, Some(last));
    var s7 := System(rotated, Some(last.draft), None);
    NothingToShow(a, policy);
    assert Acts(s0, s1, SMALL, periods);
    assert Starts(s1, s2, policy);
    assert ReadsOn(s2, s3, policy) && ReadsOn(s3, s4, policy);
    assert Acts(s4, s5, SMALL, periods);
    assert ReadsOn(s5, s6, policy);
    assert Receives(s6, s7);
    var run := [s0, s1, s2, s3, s4, s5, s6, s7];
    EightAreRun(run, SMALL, periods, policy);
    assert Lacks(s7.cache.value, b);
    assert Kept(s0, periods, policy);
  }

  lemma NothingToShow(a: Sealed, policy: Liangzi.Policy)
    requires a.days == map[] && a.weeks == map[] && a.months == map[]
    ensures Shows([], DaySlice(a.days, FULL, a.version, policy))
    ensures Shows([], PeriodSlice(a.weeks, FULL, a.version, policy)) && Shows([], PeriodSlice(a.months, FULL, a.version, policy))
  {
  }

  lemma EightAreRun(run: seq<System>, config: Config, periods: Sealing.Periods, policy: Liangzi.Policy)
    requires |run| == 8
    requires && Step(run[0], run[1], config, periods, policy) && Step(run[1], run[2], config, periods, policy)
             && Step(run[2], run[3], config, periods, policy) && Step(run[3], run[4], config, periods, policy)
             && Step(run[4], run[5], config, periods, policy) && Step(run[5], run[6], config, periods, policy)
             && Step(run[6], run[7], config, periods, policy)
    ensures IsRun(run, config, periods, policy)
  {
    hide Step;
  }
}
