/** The authority's service object: one process, its tables, and the date it last checked the archives for. Every method
    works step by step as the service does and is proved to make exactly one step of the run model. */
module BackendService {
  import opened Common
  import opened Ledger
  import opened VoteBudget
  import opened Database
  import opened Archive
  import opened Authority
  import opened Consistency
  import opened AuthoritySteps
  import opened AuthorityRuns
  import opened AuthorityEffects
  import Idempotency
  import Cadence = CadenceRuns

  /** The process is number 0 of its run; the others are the environment. */
  const THIS_PROCESS: Process := 0

  class BackendService {
    const config: Config
    const periods: Periods
    var db: Db
    var archiveChecked: Option<Day>
    ghost var today: Day

    ghost function State(): World
      reads this
    {
      World(db, today, if archiveChecked.Some? then map[THIS_PROCESS := archiveChecked.value] else map[])
    }

    ghost predicate Valid()
      reads this
    {
      Invariant(State(), periods) && config.tokenPerIncense > 0 && Partition(periods.week) && Partition(periods.month)
    }

    constructor (config: Config, periods: Periods, today: Day)
      requires config.tokenPerIncense > 0 && Partition(periods.week) && Partition(periods.month)
      ensures Valid() && State() == Start(today)
      ensures this.config == config && this.periods == periods
    {
      this.config, this.periods, this.today := config, periods, today;
      db, archiveChecked := EMPTY_DB, None;
      new;
      StartHolds(periods, today);
    }

    // ----- balance rows -----

    method TryGrantStarter(i: InstallationId, caseRow: CaseRow)
      modifies this`db
      ensures db == Database.TryGrantStarter(old(db), config, i, caseRow)
    {
      if config.starterIncenseCount <= 0 { return; }
      var fingerprint := FingerprintOf(db, i);
      if fingerprint == "" { return; }
      var tokens := config.starterIncenseCount * caseRow.tokenPerIncense;
      if (fingerprint, caseRow.day) in db.grants { return; }
      db := db.(grants := db.grants[(fingerprint, caseRow.day) := Grant(i, tokens)]);
      var k := (i, caseRow.day);
      if k in db.incense {
        var row := db.incense[k];
        db := db.(incense := db.incense[k := row.(claimed := row.claimed + tokens, starter := row.starter + tokens)]);
      }
    }

    method EnsureRow(i: InstallationId, caseRow: CaseRow)
      modifies this`db
      ensures db == Database.EnsureRow(old(db), config, i, caseRow)
    {
      db := EnsureIncenseRow(db, i, caseRow.day, caseRow.tokenPerIncense);
      TryGrantStarter(i, caseRow);
    }

    // ----- sealing -----

    /** Add up the aggregates of a date's cases. */
    method DayArchiveSource(d: Day, version: nat) returns (row: DayRow)
      ensures row == SealDay(db, d, version)
    {
      var cases := CasesOn(db, d);
      var left := cases;
      var up: nat, down: nat := 0, 0;
      while left != {}
        invariant left <= cases
        invariant up + SumStats(db.stats, left, Up) == SumStats(db.stats, cases, Up)
        invariant down + SumStats(db.stats, left, Down) == SumStats(db.stats, cases, Down)
        decreases |left|
      {
        var c :| c in left;
        SumStatsTake(db.stats, left, c, Up);
        SumStatsTake(db.stats, left, c, Down);
        up := up + SideOf(db.stats, c, Up);
        down := down + SideOf(db.stats, c, Down);
        left := left - {c};
      }
      row := DayRow(|cases|, up, down, |Voters(db.votes, Between(d, d))|, version);
    }

    /** The ended periods of some dates that are not sealed yet, by first day. */
    method CollectPeriods(rows: map<Day, PeriodRow>, candidates: set<Day>, period: Day -> Span, before: Day) returns (pending: map<Day, Span>)
      requires Partition(period)
      ensures pending.Keys == PendingPeriods(rows, candidates, period, before)
      ensures SpansOf(pending, candidates, period)
    {
      hide Partition, SpansOf, PendingPeriods;
      pending := map[];
      NothingPending(rows, candidates, period, before);
      var left := candidates;
      while left != {}
        invariant left <= candidates
        invariant pending.Keys == PendingPeriods(rows, candidates - left, period, before)
        invariant SpansOf(pending, candidates, period)
        decreases |left|
      {
        SomeInt(left);
        var d :| d in left;
        var span := period(d);
        PendingGrows(rows, candidates - left, d, period, before);
        assert candidates - (left - {d}) == candidates - left + {d};
        if span.end < before && span.start !in rows {
          OwnSpan(pending, candidates, period, d);
          pending := pending[span.start := span];
        }
        left := left - {d};
      }
      assert candidates - left == candidates;
    }

    method SealDates(pending: set<Day>, version: nat)
      requires forall d :: d in pending ==> d !in db.archive.days
      modifies this`db
      ensures db == old(db).(archive := old(db).archive.(days := SealDays(old(db), pending, version)))
    {
      hide SealDays, SealDay;
      ghost var before := db;
      var left := pending;
      assert pending - left == {};
      SealNone(db, version);
      while left != {}
        invariant left <= pending
        invariant db == before.(archive := before.archive.(days := SealDays(before, pending - left, version)))
        decreases |left|
      {
        SomeInt(left);
        var d :| d in left;
        var row := DayArchiveSource(d, version);
        SealDayFrame(before, db, d, version);
        SealOneMore(before, pending - left, d, version);
        assert pending - (left - {d}) == pending - left + {d};
        db := db.(archive := db.archive.(days := db.archive.days[d := row]));
        left := left - {d};
      }
      assert pending - left == pending;
    }

    /** The rows of some ended periods, each the sum of its sealed days; a period without sealed days would be skipped. */
    method SealSpans(rows: map<Day, PeriodRow>, pending: map<Day, Span>, period: Day -> Span, version: nat) returns (sealed: map<Day, PeriodRow>)
      requires SpansOf(pending, db.archive.days.Keys, period)
      ensures sealed == SealPeriods(rows, pending.Keys, db.archive.days, db.votes, period, version)
    {
      hide SpansOf, SealPeriods;
      sealed := rows;
      var left := pending.Keys;
      assert pending.Keys - left == {};
      SealNothing(rows, db.archive.days, db.votes, period, version);
      while left != {}
        invariant left <= pending.Keys
        invariant sealed == SealPeriods(rows, pending.Keys - left, db.archive.days, db.votes, period, version)
        decreases |left|
      {
        SomeInt(left);
        var s :| s in left;
        var span := pending[s];
        var sums := SumDays(db.archive.days, span.start, span.end);
        PeriodCovers(db.archive.days, pending, period, s);
        SealOnePeriodMore(rows, pending.Keys - left, s, db.archive.days, db.votes, period, version);
        assert pending.Keys - (left - {s}) == pending.Keys - left + {s};
        if sums.covered > 0 {
          sealed := sealed[s := PeriodRow(span.end, sums.covered, sums.up, sums.down, |Voters(db.votes, Between(span.start, span.end))|, version)];
        }
        left := left - {s};
      }
      assert pending.Keys - left == pending.Keys;
    }

    /** Insert the new rows under the next version. */
    method SealAll(pending: set<Day>, weeks: map<Day, Span>, months: map<Day, Span>)
      requires forall d :: d in pending ==> d !in db.archive.days
      requires SpansOf(weeks, db.archive.days.Keys + pending, periods.week)
      requires SpansOf(months, db.archive.days.Keys + pending, periods.month)
      modifies this`db
      ensures var a, version := old(db).archive, old(db).archive.version + 1;
              var days := SealDays(old(db), pending, version);
              db == old(db).(archive := Database.Archive.Archive(version, days,
                SealPeriods(a.weeks, weeks.Keys, days, old(db).votes, periods.week, version),
                SealPeriods(a.months, months.Keys, days, old(db).votes, periods.month, version)))
    {
      hide SealDays, SealPeriods, SpansOf;
      ghost var start := db;
      var version := db.archive.version + 1;
      db := db.(archive := db.archive.(version := version));
      SealDaysFrame(start, db, pending, version);
      SealedKeys(start, pending, version);
      SealDates(pending, version);
      var sealedWeeks := SealSpans(db.archive.weeks, weeks, periods.week, version);
      var sealedMonths := SealSpans(db.archive.months, months, periods.month, version);
      db := db.(archive := db.archive.(weeks := sealedWeeks, months := sealedMonths));
    }

    method FinalizeArchives(before: Day)
      requires Partition(periods.week) && Partition(periods.month)
      modifies this`db
      ensures db == old(db).(archive := Finalize(old(db), periods, before))
    {
      hide Partition, SealDays, SealPeriods, PendingPeriods, PendingDays, SpansOf;
      var pending := PendingDays(db, before);
      var candidates := db.archive.days.Keys + pending;
      var weeks := CollectPeriods(db.archive.weeks, candidates, periods.week, before);
      var months := CollectPeriods(db.archive.months, candidates, periods.month, before);
      KeysEmpty(weeks);
      KeysEmpty(months);
      if pending == {} && weeks == map[] && months == map[] { return; }
      PendingAreNew(db, before);
      SealAll(pending, weeks, months);
    }

    // ----- cases -----

    method ActiveCaseFor(day: Day) returns (found: Option<CaseRow>)
      ensures found.Some? <==> HasActive(db, day)
      ensures found.Some? ==> IsActiveRow(db, day, found.value)
    {
      if HasActive(db, day) {
        var c :| c in db.cases && ActiveOn(db, day, c);
        found := Some(db.cases[c]);
      } else {
        found := None;
      }
    }

    /** The rotation's transaction: close what is over, seal it, open today's case unless one is open. A taken id rolls
        everything back (None). */
    method RotateTransaction(day: Day, id: CaseId, title: string, now: int) returns (row: Option<CaseRow>)
      requires Partition(periods.week) && Partition(periods.month)
      modifies this`db
      ensures Rotate(old(db), config, periods, id, title, day, now) == if row.Some? then Some(db) else None
      ensures row.None? ==> db == old(db)
      ensures row.Some? ==> IsActiveRow(db, day, row.value)
    {
      hide Partition, Finalize, HasActive, ActiveOn, OpenCase, CloseCasesBefore;
      var saved := db;
      db := CloseCasesBefore(db, day);
      FinalizeArchives(day);
      row := ActiveCaseFor(day);
      if row.None? {
        if id in db.cases {
          db := saved;
          return;
        }
        db := OpenCase(db, NewCase(id, day, title, config, now), now);
        OpenedIsActive(saved, config, periods, id, title, day, now);
        row := ActiveCaseFor(day);
      }
    }

    /** Make sure of today's case. A process that checked this date before, and finds a case, does not look again; it
        remembers the date only once the rotation has committed. */
    method EnsureActiveCase(day: Day, id: CaseId, title: string, now: int) returns (row: Option<CaseRow>)
      requires Valid() && day >= today
      modifies this
      ensures State() == Next(old(State()), config, periods, EnsureCase(THIS_PROCESS, day, id, title, now))
      ensures Valid() && today == day
      ensures row.Some? ==> IsActiveRow(db, day, row.value) && SealedBefore(db, db.archive, periods, day)
      ensures row.None? <==> id in old(db).cases && old(db).cases[id].day < day && !HasActive(old(db), day)
      ensures row.None? ==> db == old(db)
      ensures row.Some? && !HasActive(old(db), day) ==> OpensFresh(old(db), db, config, id, title, day, now)
    {
      hide Invariant, Partition, Rotate, HasActive, SealedBefore, IsActiveRow, OpensFresh, ClosesOnlyBefore;
      EnsureFacts(State(), config, periods, day, id, title, now);
      RotationExactly(db, config, periods, id, title, day, now);
      row := ActiveCaseFor(day);
      today := day;
      if row.Some? && archiveChecked == Some(day) { return; }
      row := RotateTransaction(day, id, title, now);
      if row.Some? {
        archiveChecked := Some(day);
      }
    }

    /** Replace today's case. A taken id rolls everything back. */
    method PublishCase(day: Day, id: CaseId, title: string, now: int) returns (published: bool)
      requires Valid() && day >= today
      modifies this
      ensures Valid() && today == day
      ensures State() == Next(old(State()), config, periods, Publish(day, id, title, now))
      ensures published <==> id !in old(db).cases
      ensures published ==> OpensFresh(old(db), db, config, id, title, day, now)
    {
      hide Invariant, Partition, HasActive, OpenCase, CloseCasesBefore, CloseActiveFor, ResetUsedFor, OpensFresh, ClearsUsed;
      StepKeepsInvariant(State(), config, periods, Publish(day, id, title, now));
      PublishExactly(db, config, id, title, day, now);
      today := day;
      var saved := db;
      db := CloseCasesBefore(db, day);
      if HasActive(db, day) {
        db := CloseActiveFor(db, day);
      }
      db := ResetUsedFor(db, day);
      if id in db.cases {
        db := saved;
        return false;
      }
      db := OpenCase(db, NewCase(id, day, title, config, now), now);
      published := true;
    }

    method ResetTodayCase(day: Day, now: int) returns (reset: bool)
      requires Valid() && day >= today
      modifies this
      ensures Valid() && today == day
      ensures State() == Next(old(State()), config, periods, Reset(day, now))
      ensures reset <==> HasActive(old(db), day)
    {
      hide Invariant, Partition, HasActive, WipeVotes, ResetUsedFor;
      StepKeepsInvariant(State(), config, periods, Reset(day, now));
      today := day;
      if !HasActive(db, day) { return false; }
      db := WipeVotes(db, day, now);
      db := ResetUsedFor(db, day);
      reset := true;
    }

    // ----- claims -----

    method ApplyTokenClaim(i: InstallationId, caseRow: CaseRow, claimDay: Day, requested: nat) returns (outcome: ClaimOutcome)
      requires Valid() && caseRow.tokenPerIncense > 0
      modifies this`db
      ensures Valid()
      ensures State() == Next(old(State()), config, periods, Claim(i, caseRow, claimDay, requested))
      ensures outcome == Authority.ApplyTokenClaim(old(db), config, i, caseRow, claimDay, requested).1
      ensures outcome.WrongDate? ==> db == old(db)
      ensures outcome.Applied? ==>
                var before := ClaimedFor(Database.EnsureRow(old(db), config, i, caseRow), i, caseRow.day);
                && (i, caseRow.day) in db.incense && requested > before
                && LargestClaim(before, requested, config.absurdClaimTokens, db.incense[(i, caseRow.day)].claimed)
                && (outcome.capped <==> config.absurdClaimTokens > 0 && requested - before > config.absurdClaimTokens)
    {
      hide Invariant, Partition, Database.EnsureRow, LargestClaim;
      StepKeepsInvariant(State(), config, periods, Claim(i, caseRow, claimDay, requested));
      ClaimExactly(db, config, i, caseRow, claimDay, requested);
      if claimDay != caseRow.day { return WrongDate; }
      EnsureRowFrame(old(db), config, i, caseRow);
      EnsureRow(i, caseRow);
      var claimed := ClaimedFor(db, i, caseRow.day);
      if requested <= claimed { return BelowWatermark; }
      var target, capped := requested, false;
      if config.absurdClaimTokens > 0 && requested - claimed > config.absurdClaimTokens {
        target, capped := claimed + config.absurdClaimTokens, true;
      }
      db := RaiseClaim(db, i, caseRow.day, target);
      outcome := Applied(capped);
    }

    // ----- the snapshot cadence -----

    /** The publishing transaction of a tick: one insert, dropped when its sequence is taken. */
    method PublishWhenDue(c: CaseId, stats: StatsRow, latest: Option<SnapshotRow>, now: int) returns (shown: Option<SnapshotRow>)
      requires c in db.cases
      modifies this`db
      ensures db == Cadence.Published(old(db), config, Cadence.BothRead(c, now, stats, latest))
      ensures !Cadence.PublishDue(latest, config, stats, now) ==> shown == latest
      ensures Cadence.PublishDue(latest, config, stats, now) ==>
                var row := Cadence.NextRow(latest, stats, now);
                shown == if Cadence.Taken(SnapshotsOf(old(db), c), row.sequence) then Cadence.LatestOf(SnapshotsOf(old(db), c)) else Some(row)
    {
      hide Cadence.Inserted;
      shown := latest;
      if Cadence.PublishDue(latest, config, stats, now) {
        var row := Cadence.NextRow(latest, stats, now);
        shown := if Cadence.Taken(SnapshotsOf(db, c), row.sequence) then Cadence.LatestOf(SnapshotsOf(db, c)) else Some(row);
        db := db.(snapshots := db.snapshots[c := Cadence.Inserted(SnapshotsOf(db, c), row)]);
      }
    }

    /** The snapshot a read answers with. The tick before it finds nothing to publish, since nothing comes in between. */
    method PublishedSnapshot(c: CaseId, now: int) returns (latest: Option<SnapshotRow>)
      requires Valid() && c in db.cases
      modifies this`db
      ensures db == old(db)
      ensures latest.Some? && Cadence.Shown(latest.value) == StatsFor(db, c)
    {
      hide Consistent, ArchiveTrue, CheckedTrue, CasesUntil, TodayOpen, Partition, Cadence.Inserted;
      Cadence.LatestShowsStats(db, today, c);
      latest := PublishWhenDue(c, StatsFor(db, c), Cadence.LatestOf(SnapshotsOf(db, c)), now);
    }

    // ----- votes -----

    method RecordRejectedRequest(i: InstallationId, intent: Intent, active: CaseRow, reason: Reason, message: string) returns (result: VoteResult)
      modifies this`db
      ensures (db, result) == RecordRejected(old(db), i, intent, active, reason, message)
    {
      db := db.(receipts := db.receipts[(i, intent.requestId) :=
        Receipt(intent.caseId, active.day, intent.direction, intent.count, RejectedOnce(reason, message))]);
      result := Rejected(reason, message);
    }

    /** Append the current aggregate under the next sequence and prune; part of the vote's own transaction. */
    method PublishInTransaction(c: CaseId, now: int)
      modifies this`db
      ensures db == PublishSnapshot(old(db), c, now)
    {
      var rows, stats := SnapshotsOf(db, c), StatsFor(db, c);
      rows := rows + [SnapshotRow(LatestSequence(rows) + 1, stats.up, stats.down, stats.uniqueVoters, now)];
      db := db.(snapshots := db.snapshots[c := Newer(rows, LatestSequence(rows) - SNAPSHOT_HISTORY_LIMIT)]);
    }

    /** Spend, then record what was spent. The counters of the ledger row are read back from the spent balance. */
    method SpendAndRecord(i: InstallationId, intent: Intent, active: CaseRow, spent: nat, first: bool, now: int) returns (result: VoteResult)
      requires IncenseOk(db.incense) && CanSpend(db, i, active.day, spent)
      requires FindVote(db.votes, i, intent.requestId).None?
      requires first == (i !in Voters(db.votes, OfCase(intent.caseId)))
      modifies this`db
      ensures db == AcceptVote(old(db), i, intent, active, spent, now)
      ensures result == Accepted(intent.direction, UsedFor(db, i, active.day), RemainingFor(db, i, active.day), spent, spent, false)
    {
      hide IncenseOk, FindVote, Voters, PublishSnapshot, ApplyToStats;
      ghost var before := db;
      BalanceAfterSpend(db.incense, (i, active.day), spent);
      db := SpendIncense(db, i, active.day, spent);
      var row := db.incense[(i, active.day)];
      var remaining := RemainingOf(row);
      db := db.(votes := db.votes + [VoteRow(i, intent.requestId, intent.caseId, active.day, intent.direction, intent.count, spent,
                                             row.used, remaining, now)]);
      db := db.(receipts := db.receipts[(i, intent.requestId) :=
        Receipt(intent.caseId, active.day, intent.direction, intent.count, AcceptedOnce)]);
      StatsFrame(db, intent.caseId, intent.direction, spent, first);
      db := ApplyToStats(db, intent.caseId, intent.direction, spent, first);
      SnapshotFrame(db, active.id, now);
      PublishInTransaction(active.id, now);
      result := Accepted(intent.direction, row.used, remaining, spent, spent, false);
    }

    /** The vote transaction under the case this process last saw. */
    method CastVote(i: InstallationId, intent: Intent, active: CaseRow, now: int, maxSpend: Limit) returns (result: VoteResult)
      requires Valid()
      modifies this`db
      ensures Valid()
      ensures State() == Next(old(State()), config, periods, Step.CastVote(i, intent, active, now, maxSpend))
      ensures result == Vote(old(db), config, i, intent, active, now, maxSpend).1
    {
      hide Invariant, Partition, Database.EnsureRow, AcceptVote, ClampVoteSpend, CanSpend, RecordRejected, Replay, FindVote, Voters, RemainingFor;
      StepKeepsInvariant(State(), config, periods, Step.CastVote(i, intent, active, now, maxSpend));
      if (i, intent.requestId) in db.receipts {
        result := Replay(db, i, intent, db.receipts[(i, intent.requestId)], active);
      } else if intent.caseId !in db.cases {
        result := RecordRejectedRequest(i, intent, active, StaleCase, "case " + intent.caseId + " does not exist");
      } else if !db.cases[intent.caseId].active {
        result := RecordRejectedRequest(i, intent, active, CaseNotActive, "case " + intent.caseId + " is closed");
      } else if intent.caseId != active.id || db.cases[intent.caseId].day != active.day {
        result := RecordRejectedRequest(i, intent, active, StaleCase, "case " + intent.caseId + " is not the active case");
      } else {
        var target := db.cases[intent.caseId];
        ReadyToSpend(State(), config, periods, i, intent, target, maxSpend);
        EnsureRow(i, target);
        var first := i !in Voters(db.votes, OfCase(target.id));
        var clamp := ClampVoteSpend(intent.count, RemainingFor(db, i, target.day), maxSpend);
        var spent := if clamp.Spend? then clamp.sticks else 0;
        if spent < 1 {
          result := RecordRejectedRequest(i, intent, active, InsufficientIncense, NO_INCENSE);
        } else if !CanSpend(db, i, target.day, spent) || FindVote(db.votes, i, intent.requestId).Some? {
          // A refused spend, or a duplicate key that rolls the spend back: neither can happen here.
          assert false;
        } else {
          result := SpendAndRecord(i, intent, active, spent, first, now);
        }
      }
    }
  }

  /** What a look at today's case leaves: a true state, sealed before today unless the rotation was refused. */
  lemma EnsureFacts(w: World, config: Config, periods: Periods, day: Day, id: CaseId, title: string, now: int)
    requires Invariant(w, periods) && day >= w.today && config.tokenPerIncense > 0 && Partition(periods.week) && Partition(periods.month)
    ensures var after := EnsureActive(w, config, periods, THIS_PROCESS, day, id, title, now);
            && Invariant(after, periods)
            && (Rotate(w.db, config, periods, id, title, day, now).None? <==>
                  id in w.db.cases && w.db.cases[id].day < day && !HasActive(w.db, day))
            && (Skips(w, THIS_PROCESS, day) || Rotate(w.db, config, periods, id, title, day, now).Some? ==>
                  SealedBefore(after.db, after.db.archive, periods, day))
  {
    hide Invariant, Partition, Rotate, HasActive, SealedBefore, Skips, EnsureActive;
    StepKeepsInvariant(w, config, periods, EnsureCase(THIS_PROCESS, day, id, title, now));
    RefusedExactly(w, config, periods, day, id, title, now);
    if Skips(w, THIS_PROCESS, day) || Rotate(w.db, config, periods, id, title, day, now).Some? {
      UnrefusedSeals(w, config, periods, THIS_PROCESS, day, id, title, now);
    }
  }

  /** A fresh request on an open case finds a balance that pays for what the clamp leaves, and no ledger row under its id:
      neither the spend guard nor the UNIQUE key can refuse it. */
  lemma ReadyToSpend(w: World, config: Config, periods: Periods, i: InstallationId, intent: Intent, target: CaseRow, maxSpend: Limit)
    requires Invariant(w, periods) && (i, intent.requestId) !in w.db.receipts
    requires intent.caseId in w.db.cases && target == w.db.cases[intent.caseId]
    ensures var ready := Database.EnsureRow(w.db, config, i, target);
            var spent := ClampedSpend(ready, i, intent, target.day, maxSpend);
            && target.id == intent.caseId
            && IncenseOk(ready.incense) && (spent >= 1 ==> CanSpend(ready, i, target.day, spent))
            && FindVote(ready.votes, i, intent.requestId).None? && ready.votes == w.db.votes
  {
    hide StatsOk, VotesOk, ReceiptsOk, IncenseOk, UsedOk, SnapshotsOk, ArchiveTrue, CheckedTrue, CasesUntil, Database.EnsureRow, FindVote, CanSpend, OnlyAdds;
    EnsureRowOnlyAdds(w.db, config, i, target);
    EnsureRowKeepsConsistent(w.db, config, i, target, w.today);
    ClampedSpendIsAffordable(w.db, config, i, intent, target, maxSpend);
    Idempotency.ReceiptsMatchVotes(w.db, w.today, i, intent.requestId);
  }

  predicate IsActiveRow(db: Db, day: Day, row: CaseRow) {
    exists c :: c in db.cases && ActiveOn(db, day, c) && row == db.cases[c]
  }

  function ClaimedFor(db: Db, i: InstallationId, day: Day): nat {
    if (i, day) in db.incense then db.incense[(i, day)].claimed else 0
  }

  lemma OpenedIsActive(db: Db, config: Config, periods: Periods, id: CaseId, title: string, today: Day, now: int)
    ensures var r := Rotate(db, config, periods, id, title, today, now); r.Some? ==> HasActive(r.value, today)
  {
    hide Finalize, CloseCasesBefore;
    var closed := CloseCasesBefore(db, today);
    var sealed := closed.(archive := Finalize(closed, periods, today));
    if !HasActive(sealed, today) && id !in sealed.cases {
      var after := OpenCase(sealed, NewCase(id, today, title, config, now), now);
      assert ActiveOn(after, today, id);
    }
  }

  lemma KeysEmpty(m: map<Day, Span>)
    ensures m.Keys == {} <==> m == map[]
  {
  }

  // ----- facts about the loops -----

  ghost predicate HoldsOne(span: Span, dates: set<Day>) {
    exists d :: d in dates && span.start <= d <= span.end
  }

  /** Each span stands under its own first day and holds one of the dates. */
  ghost predicate SpansOf(pending: map<Day, Span>, dates: set<Day>, period: Day -> Span) {
    forall s :: s in pending ==> pending[s] == period(s) && HoldsOne(pending[s], dates)
  }

  lemma OwnSpan(pending: map<Day, Span>, dates: set<Day>, period: Day -> Span, d: Day)
    requires Partition(period) && SpansOf(pending, dates, period) && d in dates
    ensures SpansOf(pending[period(d).start := period(d)], dates, period)
  {
    assert period(d).start <= d <= period(d).end;
    assert period(period(d).start) == period(d);
  }

  lemma PeriodCovers(days: map<Day, DayRow>, pending: map<Day, Span>, period: Day -> Span, s: Day)
    requires SpansOf(pending, days.Keys, period) && s in pending
    ensures pending[s] == period(s) && SumDays(days, pending[s].start, pending[s].end).covered > 0
  {
    hide SumDays;
    assert HoldsOne(pending[s], days.Keys);
    var d :| d in days.Keys && pending[s].start <= d <= pending[s].end;
    CoversSome(days, pending[s].start, pending[s].end, d);
  }

  lemma NothingPending(rows: map<Day, PeriodRow>, dates: set<Day>, period: Day -> Span, before: Day)
    ensures PendingPeriods(rows, dates - dates, period, before) == {} && SpansOf(map[], dates, period)
  {
  }

  lemma SealNone(db: Db, version: nat)
    ensures SealDays(db, {}, version) == db.archive.days
  {
    hide SealDay;
    assert SealDays(db, {}, version).Keys == db.archive.days.Keys;
  }

  lemma PendingGrows(rows: map<Day, PeriodRow>, seen: set<Day>, d: Day, period: Day -> Span, before: Day)
    ensures PendingPeriods(rows, seen + {d}, period, before)
         == PendingPeriods(rows, seen, period, before)
            + (if period(d).end < before && period(d).start !in rows then {period(d).start} else {})
  {
    var one := if period(d).end < before && period(d).start !in rows then {period(d).start} else {};
    forall s | s in PendingPeriods(rows, seen, period, before) + one ensures s in PendingPeriods(rows, seen + {d}, period, before) {
      if s in PendingPeriods(rows, seen, period, before) {
        var e :| e in seen && period(e).end < before && period(e).start !in rows && period(e).start == s;
        assert e in seen + {d};
      }
    }
  }

  lemma SealDayFrame(db: Db, after: Db, d: Day, version: nat)
    requires after.cases == db.cases && after.stats == db.stats && after.votes == db.votes
    ensures SealDay(after, d, version) == SealDay(db, d, version)
  {
    assert CasesOn(after, d) == CasesOn(db, d);
  }

  lemma SealDaysFrame(db: Db, after: Db, pending: set<Day>, version: nat)
    requires after.cases == db.cases && after.stats == db.stats && after.votes == db.votes && after.archive.days == db.archive.days
    ensures SealDays(after, pending, version) == SealDays(db, pending, version)
  {
    hide SealDay;
    forall d | d in pending ensures SealDay(after, d, version) == SealDay(db, d, version) {
      SealDayFrame(db, after, d, version);
    }
  }

  lemma SealOneMore(db: Db, done: set<Day>, d: Day, version: nat)
    ensures SealDays(db, done + {d}, version) == SealDays(db, done, version)[d := SealDay(db, d, version)]
  {
    hide SealDay;
  }

  lemma SealOnePeriodMore(rows: map<Day, PeriodRow>, done: set<Day>, s: Day, days: map<Day, DayRow>, votes: seq<VoteRow>, period: Day -> Span, version: nat)
    ensures SealPeriods(rows, done + {s}, days, votes, period, version)
         == SealPeriods(rows, done, days, votes, period, version)[s := SealPeriod(days, votes, period(s), version)]
  {
    hide SealPeriod;
  }

  lemma PendingAreNew(db: Db, before: Day)
    ensures forall d :: d in PendingDays(db, before) ==> d !in db.archive.days
  {
  }

  lemma SealedKeys(db: Db, pending: set<Day>, version: nat)
    ensures SealDays(db, pending, version).Keys == db.archive.days.Keys + pending
  {
    hide SealDay;
  }
}
