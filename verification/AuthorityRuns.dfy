/** Whole runs of the authority: any number of processes, any interleaving of their transactions, and business dates
    that never go back. */
module AuthorityRuns {
  import opened Common
  import opened Ledger
  import opened VoteBudget
  import opened Database
  import opened Archive
  import opened Authority
  import opened Consistency
  import opened AuthoritySteps
  import opened BusinessPeriods

  type Process = int

  /** The shared tables, the latest business date any process has acted on, and what each process remembers in
      `archiveCheckedBusinessDate` (absent until its first rotation). A restarted process is a new one. */
  datatype World = World(db: Db, today: Day, checked: map<Process, Day>)

  datatype Step =
    | EnsureCase(process: Process, day: Day, id: CaseId, title: string, now: int)
    | CastVote(installation: InstallationId, intent: Intent, active: CaseRow, now: int, maxSpend: Limit)
    | Touch(installation: InstallationId, caseRow: CaseRow)
    | Claim(installation: InstallationId, caseRow: CaseRow, claimDay: Day, requested: nat)
    | Publish(day: Day, id: CaseId, title: string, now: int)
    | Reset(day: Day, now: int)
    | Administer(identities: map<InstallationId, Identity>, tickets: map<string, Ticket>)

  /** What the run assumes of a step: dates never go back and case rows carry a positive rate. The case row of a vote,
      touch or claim is arbitrary, so it may be arbitrarily stale. */
  predicate Possible(w: World, config: Config, step: Step) {
    match step
    case EnsureCase(_, day, _, _, _) => day >= w.today
    case Publish(day, _, _, _) => day >= w.today
    case Reset(day, _) => day >= w.today
    case Touch(_, caseRow) => caseRow.tokenPerIncense > 0
    case Claim(_, caseRow, _, _) => caseRow.tokenPerIncense > 0
    case CastVote(_, _, _, _, _) => true
    case Administer(_, _) => true
  }

  predicate Skips(w: World, p: Process, day: Day) {
    HasActive(w.db, day) && p in w.checked && w.checked[p] == day
  }

  /** `ensureActiveCase`: a process that already checked this date and finds a case does nothing; otherwise it rotates and
      remembers the date once the transaction has committed. */
  ghost function EnsureActive(w: World, config: Config, periods: Periods, p: Process, day: Day, id: CaseId, title: string, now: int): World {
    if Skips(w, p, day) then World(w.db, day, w.checked)
    else
      match Rotate(w.db, config, periods, id, title, day, now)
      case None => World(w.db, day, w.checked)
      case Some(db) => World(db, day, w.checked[p := day])
  }

  ghost function Next(w: World, config: Config, periods: Periods, step: Step): World {
    match step
    case EnsureCase(p, day, id, title, now) => EnsureActive(w, config, periods, p, day, id, title, now)
    case CastVote(i, intent, active, now, maxSpend) => w.(db := Vote(w.db, config, i, intent, active, now, maxSpend).0)
    case Touch(i, caseRow) => w.(db := EnsureRow(w.db, config, i, caseRow))
    case Claim(i, caseRow, claimDay, requested) => w.(db := ApplyTokenClaim(w.db, config, i, caseRow, claimDay, requested).0)
    case Publish(day, id, title, now) =>
      (match PublishCase(w.db, config, id, title, day, now)
       case None => w.(today := day)
       case Some(db) => w.(db := db, today := day))
    case Reset(day, now) =>
      (match ResetToday(w.db, day, now)
       case None => w.(today := day)
       case Some(db) => w.(db := db, today := day))
    case Administer(identities, tickets) => w.(db := w.db.(identities := identities, tickets := tickets))
  }

  predicate CasesUntil(cases: Cases, today: Day) {
    forall c :: c in cases ==> cases[c].day <= today
  }

  ghost predicate CheckedTrue(w: World, periods: Periods) {
    forall p :: p in w.checked ==> w.checked[p] <= w.today && SealedBefore(w.db, w.db.archive, periods, w.checked[p])
  }

  /** Once there is a case on the latest date, one of them is open. */
  predicate TodayOpen(db: Db, today: Day) {
    forall c :: c in db.cases && db.cases[c].day == today ==> HasActive(db, today)
  }

  /** The invariant of a run. */
  ghost predicate Invariant(w: World, periods: Periods) {
    && Consistent(w.db, w.today)
    && CasesUntil(w.db.cases, w.today) && TodayOpen(w.db, w.today)
    && ArchiveTrue(w.db, w.db.archive, periods, w.today)
    && CheckedTrue(w, periods)
  }

  function Start(today: Day): World { World(EMPTY_DB, today, map[]) }

  lemma StartHolds(periods: Periods, today: Day)
    ensures Invariant(Start(today), periods)
  {
  }

  // ----- dates without sealed rows -----

  /** A date on which a case is still open is spoken of by no sealed row. */
  lemma OpenDateIsUnsealed(db: Db, a: Database.Archive, periods: Periods, today: Day, c: CaseId)
    requires ArchiveTrue(db, a, periods, today) && c in db.cases && db.cases[c].active
    ensures Unsealed(a, db.cases[c].day)
  {
    hide SealPeriod;
    var d := db.cases[c].day;
    OpenDateIsOutside(db, a.days, a.weeks, periods.week, today, a.version, c);
    OpenDateIsOutside(db, a.days, a.months, periods.month, today, a.version, c);
  }

  lemma OpenDateIsOutside(db: Db, days: map<Day, DayRow>, rows: map<Day, PeriodRow>, period: Day -> Span, today: Day, version: nat, c: CaseId)
    requires PeriodsTrue(db, days, rows, period, today, version) && c in db.cases && db.cases[c].day !in days
    ensures OutsidePeriods(rows, db.cases[c].day)
  {
    hide SealPeriod;
  }

  /** Nothing at or after the latest business date is sealed. */
  lemma TodayIsUnsealed(db: Db, a: Database.Archive, periods: Periods, today: Day, day: Day)
    requires ArchiveTrue(db, a, periods, today) && day >= today
    ensures Unsealed(a, day)
  {
    hide DayTrue, PeriodTrue;
  }

  // ----- what a step leaves of the archive -----

  /** What every step but a rotation does to the archive's sources: it touches at most one unsealed date, and it opens no
      case before the latest date. */
  ghost predicate Disturbs(db: Db, after: Db, periods: Periods, today: Day, later: Day, day: Day) {
    && after.archive == db.archive && today <= later
    && Unsealed(db.archive, day)
    && SameVotesOutside(db.votes, after.votes, day) && SameCasesOutside(db.cases, after.cases, day)
    && (forall c :: c in after.cases && c !in db.cases ==> after.cases[c].day == later)
    && (forall c :: c in after.cases && c in db.cases ==> after.cases[c].day == db.cases[c].day)
  }

  lemma DisturbedStillTrue(w: World, after: World, periods: Periods, day: Day)
    requires ArchiveTrue(w.db, w.db.archive, periods, w.today) && CheckedTrue(w, periods) && CasesUntil(w.db.cases, w.today)
    requires Disturbs(w.db, after.db, periods, w.today, after.today, day) && after.checked == w.checked
    ensures ArchiveTrue(after.db, after.db.archive, periods, after.today)
    ensures CheckedTrue(after, periods) && CasesUntil(after.db.cases, after.today)
    ensures Extends(w.db.archive, after.db.archive)
  {
    DisturbedArchive(w.db, after.db, periods, w.today, after.today, day);
    hide ArchiveTrue, SameVotesOutside, SameCasesOutside, Unsealed, PeriodsCovered;
    forall p | p in after.checked
      ensures after.checked[p] <= after.today && SealedBefore(after.db, after.db.archive, periods, after.checked[p])
    {
      assert SealedBefore(w.db, w.db.archive, periods, w.checked[p]);
    }
  }


  // ----- what each step disturbs -----

  lemma NothingDisturbed(db: Db, after: Db, periods: Periods, today: Day, later: Day)
    requires ArchiveTrue(db, db.archive, periods, today) && today <= later
    requires after.archive == db.archive && after.votes == db.votes && after.cases == db.cases
    ensures Disturbs(db, after, periods, today, later, today)
  {
    hide Unsealed, ArchiveTrue;
    TodayIsUnsealed(db, db.archive, periods, today, today);
  }

  /** The three shapes of a vote: a receipt alone, a balance row and a receipt, or the acceptance of a spend. */
  ghost predicate VoteShape(db: Db, after: Db, config: Config, i: InstallationId, intent: Intent, active: CaseRow, now: int) {
    || after == db.(receipts := after.receipts)
    || (&& intent.caseId in db.cases && db.cases[intent.caseId].active
        && intent.caseId == active.id && db.cases[intent.caseId].day == active.day
        && var ready := EnsureRow(db, config, i, db.cases[intent.caseId]);
           || after == ready.(receipts := after.receipts)
           || SpendsSome(ready, after, i, intent, active, now))
  }

  ghost predicate SpendsSome(ready: Db, after: Db, i: InstallationId, intent: Intent, active: CaseRow, now: int) {
    exists spent: nat :: Spends(ready, after, i, intent, active, now, spent)
  }

  predicate Spends(ready: Db, after: Db, i: InstallationId, intent: Intent, active: CaseRow, now: int, spent: nat) {
    spent >= 1 && CanSpend(ready, i, active.day, spent) && after == AcceptVote(ready, i, intent, active, spent, now)
  }

  lemma VoteHasShape(db: Db, config: Config, i: InstallationId, intent: Intent, active: CaseRow, now: int, maxSpend: Limit)
    ensures VoteShape(db, Vote(db, config, i, intent, active, now, maxSpend).0, config, i, intent, active, now)
  {
    hide EnsureRow, ClampedSpend, CanSpend, AcceptVote, Replay;
    if intent.caseId in db.cases {
      var ready := EnsureRow(db, config, i, db.cases[intent.caseId]);
      var spent := ClampedSpend(ready, i, intent, active.day, maxSpend);
      if spent >= 1 && CanSpend(ready, i, active.day, spent) {
        assert Spends(ready, AcceptVote(ready, i, intent, active, spent, now), i, intent, active, now, spent);
      }
    }
  }

  /** A vote transaction changes no case, and adds at most one ledger row, on an open case. */
  lemma VoteFrame(db: Db, config: Config, i: InstallationId, intent: Intent, active: CaseRow, now: int, maxSpend: Limit)
    requires CasesOk(db.cases) && IncenseOk(db.incense)
    ensures var after := Vote(db, config, i, intent, active, now, maxSpend).0;
            && after.archive == db.archive && after.cases == db.cases
            && (after.votes == db.votes
                || (&& |after.votes| == |db.votes| + 1 && after.votes == db.votes + [after.votes[|db.votes|]]
                    && var v := after.votes[|db.votes|];
                       v.caseId in db.cases && db.cases[v.caseId].active && v.day == db.cases[v.caseId].day))
  {
    hide Vote, CasesOk, IncenseOk, EnsureRow, CanSpend, AcceptVote;
    var after := Vote(db, config, i, intent, active, now, maxSpend).0;
    VoteHasShape(db, config, i, intent, active, now, maxSpend);
    if intent.caseId in db.cases {
      EnsureRowFrame(db, config, i, db.cases[intent.caseId]);
      var ready := EnsureRow(db, config, i, db.cases[intent.caseId]);
      if SpendsSome(ready, after, i, intent, active, now) {
        var spent: nat :| Spends(ready, after, i, intent, active, now, spent);
        AcceptFrame(ready, i, intent, active, spent, now);
      }
    }
  }

  lemma SpendFrame(db: Db, i: InstallationId, day: Day, count: nat)
    ensures var after := SpendIncense(db, i, day, count); after == db.(incense := after.incense)
  {
  }

  lemma StatsFrame(db: Db, c: CaseId, direction: Direction, count: nat, first: bool)
    ensures var after := ApplyToStats(db, c, direction, count, first); after == db.(stats := after.stats)
  {
    hide BumpStats;
  }

  lemma SnapshotFrame(db: Db, c: CaseId, now: int)
    ensures var after := PublishSnapshot(db, c, now); after == db.(snapshots := after.snapshots)
  {
    hide Newer, LatestSequence;
  }

  lemma AcceptFrame(db: Db, i: InstallationId, intent: Intent, active: CaseRow, spent: nat, now: int)
    ensures var after := AcceptVote(db, i, intent, active, spent, now);
            && after.archive == db.archive && after.cases == db.cases
            && after.votes == db.votes + [NewVote(db, i, intent, active.day, spent, now)]
            && after.receipts == db.receipts[(i, intent.requestId) :=
                 Receipt(intent.caseId, active.day, intent.direction, intent.count, AcceptedOnce)]
  {
    hide Voters, SpendIncense, ApplyToStats, PublishSnapshot, NewVote;
    var first := i !in Voters(db.votes, OfCase(intent.caseId));
    SpendFrame(db, i, active.day, spent);
    var recorded := SpendIncense(db, i, active.day, spent).(
      votes := db.votes + [NewVote(db, i, intent, active.day, spent, now)],
      receipts := db.receipts[(i, intent.requestId) := Receipt(intent.caseId, active.day, intent.direction, intent.count, AcceptedOnce)]);
    StatsFrame(recorded, intent.caseId, intent.direction, spent, first);
    SnapshotFrame(ApplyToStats(recorded, intent.caseId, intent.direction, spent, first), active.id, now);
  }

  lemma VoteDisturbs(w: World, config: Config, periods: Periods, i: InstallationId, intent: Intent, active: CaseRow, now: int, maxSpend: Limit)
    returns (day: Day)
    requires CasesOk(w.db.cases) && IncenseOk(w.db.incense) && ArchiveTrue(w.db, w.db.archive, periods, w.today)
    ensures Disturbs(w.db, Vote(w.db, config, i, intent, active, now, maxSpend).0, periods, w.today, w.today, day)
  {
    hide Vote, CasesOk, IncenseOk, ArchiveTrue, Unsealed, SameVotesOutside;
    var after := Vote(w.db, config, i, intent, active, now, maxSpend).0;
    VoteFrame(w.db, config, i, intent, active, now, maxSpend);
    if after.votes == w.db.votes {
      day := w.today;
      NothingDisturbed(w.db, after, periods, w.today, w.today);
    } else {
      var v := after.votes[|w.db.votes|];
      day := v.day;
      OpenDateIsUnsealed(w.db, w.db.archive, periods, w.today, v.caseId);
      AppendOutside(w.db.votes, v);
    }
  }

  lemma SameVotes(votes: seq<VoteRow>, day: Day)
    ensures SameVotesOutside(votes, votes, day)
  {
  }

  /** Rows keep their dates, none is reopened, and only `id` may be new. */
  predicate OnlyOpens(cases: Cases, after: Cases, id: CaseId, day: Day) {
    && (forall c :: c in cases ==> c in after && after[c].day == cases[c].day && (after[c].active ==> cases[c].active))
    && (forall c :: c in after && c !in cases ==> c == id && after[c].day == day)
  }

  lemma ResetUsedFrame(db: Db, day: Day)
    ensures var after := ResetUsedFor(db, day); after == db.(incense := after.incense)
  {
  }

  lemma CloseFrame(db: Db, day: Day)
    ensures var after := CloseCasesBefore(db, day); after == db.(cases := after.cases) && OnlyCloses(db.cases, after.cases)
    ensures var after := CloseActiveFor(db, day); after == db.(cases := after.cases) && OnlyCloses(db.cases, after.cases)
  {
  }

  lemma ClosedThenOpened(cases: Cases, once: Cases, twice: Cases, row: CaseRow)
    requires OnlyCloses(cases, once) && OnlyCloses(once, twice) && row.id !in twice
    ensures OnlyOpens(cases, twice[row.id := row], row.id, row.day)
  {
  }

  lemma PublishFrame(db: Db, config: Config, id: CaseId, title: string, later: Day, now: int)
    ensures var r := PublishCase(db, config, id, title, later, now);
            r.Some? ==> r.value.archive == db.archive && r.value.votes == db.votes && OnlyOpens(db.cases, r.value.cases, id, later)
                        && r.value.receipts == db.receipts
  {
    hide HasActive, ResetUsedFor, CloseCasesBefore, CloseActiveFor, OnlyOpens;
    var closed := CloseCasesBefore(db, later);
    CloseFrame(db, later);
    CloseFrame(closed, later);
    var cleared := if HasActive(closed, later) then CloseActiveFor(closed, later) else closed;
    ResetUsedFrame(cleared, later);
    if id !in cleared.cases {
      ClosedThenOpened(db.cases, closed.cases, cleared.cases, NewCase(id, later, title, config, now));
    }
  }

  lemma PublishDisturbs(w: World, config: Config, periods: Periods, id: CaseId, title: string, later: Day, now: int)
    requires ArchiveTrue(w.db, w.db.archive, periods, w.today) && w.today <= later
    ensures var r := PublishCase(w.db, config, id, title, later, now);
            r.Some? ==> Disturbs(w.db, r.value, periods, w.today, later, later)
  {
    hide ArchiveTrue, Unsealed, SameVotesOutside, PublishCase;
    PublishFrame(w.db, config, id, title, later, now);
    TodayIsUnsealed(w.db, w.db.archive, periods, w.today, later);
    SameVotes(w.db.votes, later);
  }

  lemma ResetDisturbs(w: World, periods: Periods, later: Day, now: int)
    requires ArchiveTrue(w.db, w.db.archive, periods, w.today) && w.today <= later
    ensures var r := ResetToday(w.db, later, now);
            r.Some? ==> Disturbs(w.db, r.value, periods, w.today, later, later)
  {
    hide ArchiveTrue, Unsealed, SameVotesOutside, HasActive, Kept;
    TodayIsUnsealed(w.db, w.db.archive, periods, w.today, later);
    DeleteOutside(w.db.votes, later);
  }

  // ----- rotation -----

  lemma CloseBeforeDisturbs(db: Db, periods: Periods, today: Day, later: Day)
    requires ArchiveTrue(db, db.archive, periods, today) && today <= later
    ensures Disturbs(db, CloseCasesBefore(db, later), periods, today, later, later)
  {
    hide ArchiveTrue, Unsealed, SameVotesOutside;
    TodayIsUnsealed(db, db.archive, periods, today, later);
    SameVotes(db.votes, later);
  }

  lemma OpenDisturbs(db: Db, row: CaseRow, periods: Periods, today: Day, now: int)
    requires ArchiveTrue(db, db.archive, periods, today) && row.day == today && row.id !in db.cases
    ensures Disturbs(db, OpenCase(db, row, now), periods, today, today, today)
  {
    hide ArchiveTrue, Unsealed, SameVotesOutside;
    TodayIsUnsealed(db, db.archive, periods, today, today);
    SameVotes(db.votes, today);
  }

  lemma OpenKeepsSealed(db: Db, row: CaseRow, periods: Periods, today: Day, now: int)
    requires SealedBefore(db, db.archive, periods, today) && row.day == today
    ensures SealedBefore(OpenCase(db, row, now), db.archive, periods, today)
  {
    hide PeriodsCovered;
  }

  /** A rotation seals truly, changes no sealed row, and leaves nothing before its date unsealed. */
  lemma RotateSeals(db: Db, config: Config, periods: Periods, id: CaseId, title: string, today: Day, later: Day, now: int)
    requires Consistent(db, today) && ArchiveTrue(db, db.archive, periods, today) && today <= later
    requires CasesUntil(db.cases, today)
    requires Partition(periods.week) && Partition(periods.month)
    ensures var r := Rotate(db, config, periods, id, title, later, now);
            r.Some? ==>
              && ArchiveTrue(r.value, r.value.archive, periods, later)
              && SealedBefore(r.value, r.value.archive, periods, later)
              && Extends(db.archive, r.value.archive)
              && CasesUntil(r.value.cases, later)
  {
    hide Consistent, ArchiveTrue, SealedBefore, Extends, Partition, LedgerAgrees, Finalize, HasActive, OpenCase, Disturbs, CloseCasesBefore;
    CloseBeforeKeepsConsistent(db, today, later);
    CloseBeforeDisturbs(db, periods, today, later);
    var closed := CloseCasesBefore(db, later);
    DisturbedArchive(db, closed, periods, today, later, later);
    ConsistentLedger(closed, later);
    FinalizeIsSound(closed, periods, later);
    var sealed := closed.(archive := Finalize(closed, periods, later));
    SealingOnly(closed, sealed, periods, later);
    if !HasActive(sealed, later) && id !in sealed.cases {
      var row := NewCase(id, later, title, config, now);
      OpenDisturbs(sealed, row, periods, later, now);
      DisturbedArchive(sealed, OpenCase(sealed, row, now), periods, later, later, later);
      OpenKeepsSealed(sealed, row, periods, later, now);
      OpenedUntil(sealed, row, later, now);
    }
  }

  lemma OpenedUntil(db: Db, row: CaseRow, today: Day, now: int)
    requires CasesUntil(db.cases, today) && row.day == today
    ensures CasesUntil(OpenCase(db, row, now).cases, today) && OpenCase(db, row, now).archive == db.archive
  {
  }

  lemma DisturbedArchive(db: Db, after: Db, periods: Periods, today: Day, later: Day, day: Day)
    requires ArchiveTrue(db, db.archive, periods, today) && Disturbs(db, after, periods, today, later, day)
    ensures ArchiveTrue(after, after.archive, periods, later) && after.archive == db.archive
  {
    hide ArchiveTrue, SameVotesOutside, SameCasesOutside, Unsealed;
    ArchiveUndisturbed(db, after, db.archive, periods, today, later, day);
  }

  /** What is said about an archive depends on the votes and cases only. */
  lemma SealingOnly(db: Db, sealed: Db, periods: Periods, today: Day)
    requires sealed == db.(archive := sealed.archive)
    requires ArchiveTrue(db, sealed.archive, periods, today) && SealedBefore(db, sealed.archive, periods, today)
    ensures ArchiveTrue(sealed, sealed.archive, periods, today) && SealedBefore(sealed, sealed.archive, periods, today)
  {
    hide SealPeriod, Total, Voters;
  }

  // ----- one step -----

  lemma ConsistentLater(db: Db, today: Day, later: Day)
    requires Consistent(db, today) && today <= later
    ensures Consistent(db, later)
  {
    hide CasesOk, StatsOk, VotesOk, ReceiptsOk, IncenseOk, SnapshotsOk, Total;
  }

  lemma StepKeepsConsistent(w: World, config: Config, periods: Periods, step: Step)
    requires Consistent(w.db, w.today) && Possible(w, config, step) && config.tokenPerIncense > 0
    ensures var after := Next(w, config, periods, step); Consistent(after.db, after.today) && w.today <= after.today
  {
    hide CasesOk, StatsOk, VotesOk, ReceiptsOk, IncenseOk, UsedOk, SnapshotsOk, Rotate, Vote, EnsureRow, ApplyTokenClaim,
         PublishCase, ResetToday, HasActive;
    match step
    case EnsureCase(p, day, id, title, now) =>
      ConsistentLater(w.db, w.today, day);
      RotateKeepsConsistent(w.db, config, periods, id, title, w.today, day, now);
    case CastVote(i, intent, active, now, maxSpend) =>
      VoteKeepsConsistent(w.db, config, i, intent, active, now, maxSpend, w.today);
    case Touch(i, caseRow) => EnsureRowKeepsConsistent(w.db, config, i, caseRow, w.today);
    case Claim(i, caseRow, claimDay, requested) =>
      ClaimKeepsConsistent(w.db, config, i, caseRow, claimDay, requested, w.today);
    case Publish(day, id, title, now) =>
      ConsistentLater(w.db, w.today, day);
      PublishCaseKeepsConsistent(w.db, config, id, title, w.today, day, now);
    case Reset(day, now) =>
      ConsistentLater(w.db, w.today, day);
      ResetKeepsConsistent(w.db, day, now);
    case Administer(_, _) =>
  }

  lemma StepDisturbs(w: World, config: Config, periods: Periods, step: Step) returns (day: Day)
    requires Consistent(w.db, w.today) && ArchiveTrue(w.db, w.db.archive, periods, w.today)
    requires Possible(w, config, step) && !step.EnsureCase?
    ensures var after := Next(w, config, periods, step);
            Disturbs(w.db, after.db, periods, w.today, after.today, day) && after.checked == w.checked
  {
    hide CasesOk, StatsOk, VotesOk, ReceiptsOk, IncenseOk, UsedOk, SnapshotsOk, Vote, EnsureRow, ApplyTokenClaim,
         PublishCase, ResetToday, ArchiveTrue, Disturbs;
    var after := Next(w, config, periods, step);
    day := after.today;
    match step
    case CastVote(i, intent, active, now, maxSpend) =>
      day := VoteDisturbs(w, config, periods, i, intent, active, now, maxSpend);
    case Touch(i, caseRow) =>
      EnsureRowKeepsConsistent(w.db, config, i, caseRow, w.today);
      NothingDisturbed(w.db, after.db, periods, w.today, w.today);
    case Claim(i, caseRow, claimDay, requested) =>
      ClaimKeepsConsistent(w.db, config, i, caseRow, claimDay, requested, w.today);
      NothingDisturbed(w.db, after.db, periods, w.today, w.today);
    case Publish(later, id, title, now) =>
      if PublishCase(w.db, config, id, title, later, now).None? {
        day := w.today;
        NothingDisturbed(w.db, w.db, periods, w.today, later);
      } else {
        PublishDisturbs(w, config, periods, id, title, later, now);
      }
    case Reset(later, now) =>
      if ResetToday(w.db, later, now).None? {
        day := w.today;
        NothingDisturbed(w.db, w.db, periods, w.today, later);
      } else {
        ResetDisturbs(w, periods, later, now);
      }
    case Administer(_, _) =>
      NothingDisturbed(w.db, after.db, periods, w.today, w.today);
  }

  /** What a process remembers stays true when more is sealed. */
  lemma CheckedLater(w: World, after: World, periods: Periods)
    requires CheckedTrue(w, periods) && w.today <= after.today
    requires SealedBefore(after.db, after.db.archive, periods, after.today)
    requires forall p :: p in after.checked ==> after.checked[p] == after.today || (p in w.checked && after.checked[p] == w.checked[p])
    ensures CheckedTrue(after, periods)
  {
  }

  lemma LaterOpen(db: Db, today: Day, later: Day)
    requires TodayOpen(db, today) && CasesUntil(db.cases, today) && today <= later
    ensures TodayOpen(db, later)
  {
    hide HasActive;
  }

  lemma ResetKeepsOpen(db: Db, day: Day, now: int)
    ensures var r := ResetToday(db, day, now); r.Some? ==> HasActive(r.value, day)
  {
    hide Kept;
    if HasActive(db, day) {
      var c :| c in db.cases && ActiveOn(db, day, c);
      var after := ResetUsedFor(WipeVotes(db, day, now), day);
      assert ActiveOn(after, day, c);
    }
  }

  lemma SameCasesOpen(db: Db, after: Db, today: Day)
    requires TodayOpen(db, today) && after.cases == db.cases
    ensures TodayOpen(after, today)
  {
    if HasActive(db, today) {
      var c :| c in db.cases && ActiveOn(db, today, c);
      assert ActiveOn(after, today, c);
    }
  }

  lemma StepKeepsOpen(w: World, config: Config, periods: Periods, step: Step)
    requires Consistent(w.db, w.today) && Possible(w, config, step) && config.tokenPerIncense > 0
    requires TodayOpen(w.db, w.today) && CasesUntil(w.db.cases, w.today)
    ensures var after := Next(w, config, periods, step); TodayOpen(after.db, after.today)
  {
    hide CasesOk, StatsOk, VotesOk, ReceiptsOk, IncenseOk, UsedOk, SnapshotsOk, Rotate, Vote, EnsureRow, ApplyTokenClaim,
         PublishCase, ResetToday, HasActive, CasesUntil;
    var after := Next(w, config, periods, step);
    match step
    case EnsureCase(p, day, id, title, now) =>
      LaterOpen(w.db, w.today, day);
      RotateKeepsConsistent(w.db, config, periods, id, title, w.today, day, now);
    case CastVote(i, intent, active, now, maxSpend) =>
      VoteFrame(w.db, config, i, intent, active, now, maxSpend);
      SameCasesOpen(w.db, after.db, w.today);
    case Touch(i, caseRow) =>
      EnsureRowKeepsConsistent(w.db, config, i, caseRow, w.today);
      SameCasesOpen(w.db, after.db, w.today);
    case Claim(i, caseRow, claimDay, requested) =>
      ClaimKeepsConsistent(w.db, config, i, caseRow, claimDay, requested, w.today);
      SameCasesOpen(w.db, after.db, w.today);
    case Publish(day, id, title, now) =>
      LaterOpen(w.db, w.today, day);
      PublishCaseKeepsConsistent(w.db, config, id, title, w.today, day, now);
    case Reset(day, now) =>
      LaterOpen(w.db, w.today, day);
      ResetKeepsOpen(w.db, day, now);
    case Administer(_, _) =>
      SameCasesOpen(w.db, after.db, w.today);
  }

  lemma EnsureKeepsInvariant(w: World, config: Config, periods: Periods, p: Process, day: Day, id: CaseId, title: string, now: int)
    requires Invariant(w, periods) && day >= w.today && config.tokenPerIncense > 0
    requires Partition(periods.week) && Partition(periods.month)
    ensures var after := EnsureActive(w, config, periods, p, day, id, title, now);
            Invariant(after, periods) && Extends(w.db.archive, after.db.archive)
  {
    hide Consistent, ArchiveTrue, Extends, Partition, SealedBefore, CheckedTrue, CasesUntil, Rotate, Disturbs, HasActive, TodayOpen;
    var after := EnsureActive(w, config, periods, p, day, id, title, now);
    ConsistentLater(w.db, w.today, day);
    StepKeepsOpen(w, config, periods, EnsureCase(p, day, id, title, now));
    if Skips(w, p, day) || Rotate(w.db, config, periods, id, title, day, now).None? {
      NothingDisturbed(w.db, after.db, periods, w.today, day);
      DisturbedStillTrue(w, after, periods, w.today);
    } else {
      RotateKeepsConsistent(w.db, config, periods, id, title, w.today, day, now);
      RotateSeals(w.db, config, periods, id, title, w.today, day, now);
      CheckedLater(w, after, periods);
    }
  }

  /** Every step keeps the invariant, and never changes or drops a sealed row. */
  lemma StepKeepsInvariant(w: World, config: Config, periods: Periods, step: Step)
    requires Invariant(w, periods) && Possible(w, config, step) && config.tokenPerIncense > 0
    requires Partition(periods.week) && Partition(periods.month)
    ensures var after := Next(w, config, periods, step);
            Invariant(after, periods) && Extends(w.db.archive, after.db.archive) && w.today <= after.today
  {
    hide Consistent, ArchiveTrue, Extends, Partition, CheckedTrue, CasesUntil, TodayOpen, Disturbs, EnsureActive;
    StepKeepsConsistent(w, config, periods, step);
    StepKeepsOpen(w, config, periods, step);
    if step.EnsureCase? {
      EnsureKeepsInvariant(w, config, periods, step.process, step.day, step.id, step.title, step.now);
    } else {
      var day := StepDisturbs(w, config, periods, step);
      DisturbedStillTrue(w, Next(w, config, periods, step), periods, day);
    }
  }

  /** A rotation is refused exactly when its case id belongs to an earlier date and no case is open on the new one. */
  lemma RefusedExactly(w: World, config: Config, periods: Periods, day: Day, id: CaseId, title: string, now: int)
    requires Invariant(w, periods) && day >= w.today
    ensures Rotate(w.db, config, periods, id, title, day, now).None? <==>
              id in w.db.cases && w.db.cases[id].day < day && !HasActive(w.db, day)
  {
    hide Consistent, ArchiveTrue, CheckedTrue, Finalize, HasActive;
    LaterOpen(w.db, w.today, day);
    CloseLaterOpen(w.db, day);
    ArchiveApart(CloseCasesBefore(w.db, day), Finalize(CloseCasesBefore(w.db, day), periods, day), day);
  }

  lemma CloseLaterOpen(db: Db, day: Day)
    ensures HasActive(CloseCasesBefore(db, day), day) <==> HasActive(db, day)
  {
    var closed := CloseCasesBefore(db, day);
    forall c ensures ActiveOn(closed, day, c) <==> ActiveOn(db, day, c) {
    }
  }

  lemma ArchiveApart(db: Db, archive: Database.Archive, day: Day)
    ensures HasActive(db.(archive := archive), day) <==> HasActive(db, day)
  {
    forall c ensures ActiveOn(db.(archive := archive), day, c) <==> ActiveOn(db, day, c) {
    }
  }

  /** A look at today's case that is not refused leaves nothing before today unsealed, whether the process rotated or
      trusted its own memory. */
  lemma UnrefusedSeals(w: World, config: Config, periods: Periods, p: Process, day: Day, id: CaseId, title: string, now: int)
    requires Invariant(w, periods) && day >= w.today && Partition(periods.week) && Partition(periods.month)
    requires Skips(w, p, day) || Rotate(w.db, config, periods, id, title, day, now).Some?
    ensures var after := EnsureActive(w, config, periods, p, day, id, title, now);
            SealedBefore(after.db, after.db.archive, periods, day) && p in after.checked && after.checked[p] == day
  {
    hide Consistent, ArchiveTrue, Extends, Partition, SealedBefore, CasesUntil, TodayOpen, Rotate, HasActive;
    RotateSeals(w.db, config, periods, id, title, w.today, day, now);
  }

  /** And with the id made from the date, which no case of another date has, it is not refused. */
  lemma EnsureLeavesNothingUnsealed(w: World, config: Config, periods: Periods, p: Process, day: Day, id: CaseId, title: string, now: int)
    requires Invariant(w, periods) && day >= w.today && Partition(periods.week) && Partition(periods.month)
    requires id in w.db.cases ==> w.db.cases[id].day == day
    ensures var after := EnsureActive(w, config, periods, p, day, id, title, now);
            SealedBefore(after.db, after.db.archive, periods, day) && p in after.checked && after.checked[p] == day
  {
    hide Invariant, Partition, SealedBefore, Rotate, HasActive, Skips;
    RefusedExactly(w, config, periods, day, id, title, now);
    UnrefusedSeals(w, config, periods, p, day, id, title, now);
  }

  // ----- whole runs -----

  ghost function Run(w: World, config: Config, periods: Periods, steps: seq<Step>): World
    decreases |steps|
  {
    if steps == [] then w else Run(Next(w, config, periods, steps[0]), config, periods, steps[1..])
  }

  ghost predicate PossibleRun(w: World, config: Config, periods: Periods, steps: seq<Step>)
    decreases |steps|
  {
    steps == [] || (Possible(w, config, steps[0]) && PossibleRun(Next(w, config, periods, steps[0]), config, periods, steps[1..]))
  }

  lemma ExtendsTransitive(a: Database.Archive, b: Database.Archive, c: Database.Archive)
    requires Extends(a, b) && Extends(b, c)
    ensures Extends(a, c)
  {
    DaysExtendTransitive(a.days, b.days, c.days, a.version, b.version, c.version);
    PeriodsExtendTransitive(a.weeks, b.weeks, c.weeks, a.version, b.version, c.version);
    PeriodsExtendTransitive(a.months, b.months, c.months, a.version, b.version, c.version);
  }

  lemma DaysExtendTransitive(a: map<Day, DayRow>, b: map<Day, DayRow>, c: map<Day, DayRow>, v: nat, w: nat, x: nat)
    requires DaysExtend(a, b, v, w) && DaysExtend(b, c, w, x) && v <= w <= x
    ensures DaysExtend(a, c, v, x)
  {
  }

  lemma PeriodsExtendTransitive(a: map<Day, PeriodRow>, b: map<Day, PeriodRow>, c: map<Day, PeriodRow>, v: nat, w: nat, x: nat)
    requires PeriodsExtend(a, b, v, w) && PeriodsExtend(b, c, w, x) && v <= w <= x
    ensures PeriodsExtend(a, c, v, x)
  {
  }

  lemma ExtendsItself(a: Database.Archive)
    ensures Extends(a, a)
  {
  }

  /** Over any run: tables agree, every sealed row is true and stays as it was sealed, dates do not go back. */
  lemma {:induction false} RunKeepsInvariant(w: World, config: Config, periods: Periods, steps: seq<Step>)
    requires Invariant(w, periods) && PossibleRun(w, config, periods, steps) && config.tokenPerIncense > 0
    requires Partition(periods.week) && Partition(periods.month)
    ensures var after := Run(w, config, periods, steps);
            Invariant(after, periods) && Extends(w.db.archive, after.db.archive) && w.today <= after.today
    decreases |steps|
  {
    hide Invariant, Extends, Partition, Next, Possible;
    if steps == [] {
      ExtendsItself(w.db.archive);
    } else {
      var next := Next(w, config, periods, steps[0]);
      StepKeepsInvariant(w, config, periods, steps[0]);
      RunKeepsInvariant(next, config, periods, steps[1..]);
      ExtendsTransitive(w.db.archive, next.db.archive, Run(w, config, periods, steps).db.archive);
    }
  }

  // ----- case ids -----

  type CaseNames = Day -> CaseId

  ghost predicate Injective(names: CaseNames) {
    forall d, e :: names(d) == names(e) ==> d == e
  }

  /** A rotation names its case after the date; a published case carries a random suffix, so it has no date's name. */
  ghost predicate Named(names: CaseNames, step: Step) {
    match step
    case EnsureCase(_, day, id, _, _) => id == names(day)
    case Publish(_, id, _, _) => forall d :: names(d) != id
    case _ => true
  }

  ghost predicate NamesKept(cases: Cases, names: CaseNames) {
    forall d :: names(d) in cases ==> cases[names(d)].day == d
  }

  lemma RotateOnlyOpens(db: Db, config: Config, periods: Periods, id: CaseId, title: string, later: Day, now: int)
    ensures var r := Rotate(db, config, periods, id, title, later, now);
            r.Some? ==> OnlyOpens(db.cases, r.value.cases, id, later)
  {
    hide Finalize, HasActive;
  }

  lemma StepKeepsNames(w: World, config: Config, periods: Periods, names: CaseNames, step: Step)
    requires Consistent(w.db, w.today) && Possible(w, config, step)
    requires Injective(names) && NamesKept(w.db.cases, names) && Named(names, step)
    ensures NamesKept(Next(w, config, periods, step).db.cases, names)
  {
    hide CasesOk, StatsOk, VotesOk, ReceiptsOk, IncenseOk, UsedOk, SnapshotsOk, Rotate, Vote, EnsureRow, ApplyTokenClaim,
         PublishCase, HasActive, Kept;
    match step
    case EnsureCase(p, day, id, title, now) => RotateOnlyOpens(w.db, config, periods, id, title, day, now);
    case CastVote(i, intent, active, now, maxSpend) => VoteFrame(w.db, config, i, intent, active, now, maxSpend);
    case Touch(i, caseRow) => EnsureRowKeepsConsistent(w.db, config, i, caseRow, w.today);
    case Claim(i, caseRow, claimDay, requested) => ClaimKeepsConsistent(w.db, config, i, caseRow, claimDay, requested, w.today);
    case Publish(day, id, title, now) => PublishFrame(w.db, config, id, title, day, now);
    case Reset(_, _) =>
    case Administer(_, _) =>
  }

  lemma {:induction false} RunKeepsNames(w: World, config: Config, periods: Periods, names: CaseNames, steps: seq<Step>)
    requires Invariant(w, periods) && PossibleRun(w, config, periods, steps) && config.tokenPerIncense > 0
    requires Partition(periods.week) && Partition(periods.month)
    requires Injective(names) && NamesKept(w.db.cases, names) && forall step :: step in steps ==> Named(names, step)
    ensures NamesKept(Run(w, config, periods, steps).db.cases, names)
    decreases |steps|
  {
    hide Consistent, ArchiveTrue, CheckedTrue, CasesUntil, TodayOpen, Partition, Next, Possible, Extends, NamesKept, Named, Injective;
    if steps != [] {
      assert steps[0] in steps && forall step :: step in steps[1..] ==> step in steps;
      StepKeepsNames(w, config, periods, names, steps[0]);
      StepKeepsInvariant(w, config, periods, steps[0]);
      RunKeepsNames(Next(w, config, periods, steps[0]), config, periods, names, steps[1..]);
    }
  }

  /** With ids made from dates no rotation is refused at the end of any run, so the next look at today's case opens one
      and leaves nothing before today unsealed. */
  lemma RotationsAreNeverRefused(w: World, config: Config, periods: Periods, names: CaseNames, steps: seq<Step>,
                                 p: Process, day: Day, title: string, now: int)
    requires Invariant(w, periods) && PossibleRun(w, config, periods, steps) && config.tokenPerIncense > 0
    requires Partition(periods.week) && Partition(periods.month)
    requires Injective(names) && NamesKept(w.db.cases, names) && forall step :: step in steps ==> Named(names, step)
    requires day >= Run(w, config, periods, steps).today
    ensures var reached := Run(w, config, periods, steps);
            var after := EnsureActive(reached, config, periods, p, day, names(day), title, now);
            && Rotate(reached.db, config, periods, names(day), title, day, now).Some?
            && HasActive(after.db, day) && SealedBefore(after.db, after.db.archive, periods, day)
  {
    hide Consistent, ArchiveTrue, CheckedTrue, CasesUntil, TodayOpen, Partition, Run, PossibleRun, Possible, Extends, Rotate, HasActive,
         SealedBefore;
    RunKeepsInvariant(w, config, periods, steps);
    RunKeepsNames(w, config, periods, names, steps);
    var reached := Run(w, config, periods, steps);
    RefusedExactly(reached, config, periods, day, names(day), title, now);
    EnsureLeavesNothingUnsealed(reached, config, periods, p, day, names(day), title, now);
    RotateKeepsConsistent(reached.db, config, periods, names(day), title, reached.today, day, now);
  }

  /** A day sealed at any point of a run still carries the same row at the end of it, and that row still counts the ledger. */
  lemma SealedDayIsTrueForEver(w: World, config: Config, periods: Periods, steps: seq<Step>, d: Day)
    requires Invariant(w, periods) && PossibleRun(w, config, periods, steps) && config.tokenPerIncense > 0
    requires Partition(periods.week) && Partition(periods.month) && d in w.db.archive.days
    ensures var row, after := w.db.archive.days[d], Run(w, config, periods, steps).db;
            && d in after.archive.days && after.archive.days[d] == row
            && row.up == Total(after.votes, OnDay(d, Up)) && row.down == Total(after.votes, OnDay(d, Down))
            && row.uniqueVoters == |Voters(after.votes, Between(d, d))| && row.caseCount == |CasesOn(after, d)|
  {
    hide Consistent, PeriodsTrue, CheckedTrue, CasesUntil, Total, Voters, CasesOn, Partition, Run, PossibleRun;
    RunKeepsInvariant(w, config, periods, steps);
    var after := Run(w, config, periods, steps).db;
    assert DayTrue(after, d, after.archive.days[d], after.archive.version);
  }

  /** The same for a sealed week: the sum of its sealed days, and the ledger's counts and voters over its whole range. */
  lemma SealedWeekIsTrueForEver(w: World, config: Config, periods: Periods, steps: seq<Step>, s: Day)
    requires Invariant(w, periods) && PossibleRun(w, config, periods, steps) && config.tokenPerIncense > 0
    requires Partition(periods.week) && Partition(periods.month) && s in w.db.archive.weeks
    ensures var row, after := w.db.archive.weeks[s], Run(w, config, periods, steps).db;
            s in after.archive.weeks && after.archive.weeks[s] == row && PeriodCounts(after, row, s)
  {
    hide Consistent, CheckedTrue, CasesUntil, Partition, Run, PossibleRun, DaysTrue, PeriodTrue, PeriodCounts;
    RunKeepsInvariant(w, config, periods, steps);
    var end := Run(w, config, periods, steps);
    SealedPeriodCounts(end.db, end.db.archive.weeks, periods.week, end.today, s);
  }

  lemma SealedMonthIsTrueForEver(w: World, config: Config, periods: Periods, steps: seq<Step>, s: Day)
    requires Invariant(w, periods) && PossibleRun(w, config, periods, steps) && config.tokenPerIncense > 0
    requires Partition(periods.week) && Partition(periods.month) && s in w.db.archive.months
    ensures var row, after := w.db.archive.months[s], Run(w, config, periods, steps).db;
            s in after.archive.months && after.archive.months[s] == row && PeriodCounts(after, row, s)
  {
    hide Consistent, CheckedTrue, CasesUntil, Partition, Run, PossibleRun, DaysTrue, PeriodTrue, PeriodCounts;
    RunKeepsInvariant(w, config, periods, steps);
    var end := Run(w, config, periods, steps);
    SealedPeriodCounts(end.db, end.db.archive.months, periods.month, end.today, s);
  }

  /** A period row is the sum of its sealed days and the ledger's own counts over the range. */
  ghost predicate PeriodCounts(db: Db, row: PeriodRow, start: Day) {
    && Sums(row.coveredDays, row.up, row.down) == SumDays(db.archive.days, start, row.end)
    && row.up == Total(db.votes, Ranged(start, row.end, Up)) && row.down == Total(db.votes, Ranged(start, row.end, Down))
    && row.uniqueVoters == |Voters(db.votes, Between(start, row.end))|
    && row.coveredDays == |SealedWithin(db.archive.days, start, row.end)|
  }

  lemma SealedPeriodCounts(db: Db, rows: map<Day, PeriodRow>, period: Day -> Span, today: Day, s: Day)
    requires Consistent(db, today) && DaysTrue(db, db.archive.days, today, db.archive.version)
    requires PeriodsTrue(db, db.archive.days, rows, period, today, db.archive.version) && s in rows
    ensures PeriodCounts(db, rows[s], s)
  {
    hide Consistent, DaysTrue, LedgerAgrees, Total, Voters, SumDays;
    ConsistentLedger(db, today);
    assert PeriodTrue(db, db.archive.days, s, rows[s], period, db.archive.version);
    PeriodCountsLedger(db, db.archive.days, today, db.archive.version, s, rows[s].end, Up);
    PeriodCountsLedger(db, db.archive.days, today, db.archive.version, s, rows[s].end, Down);
    CoveredAreSealed(db.archive.days, s, rows[s].end);
  }

  /** In every state an empty authority can reach over the business calendar, for every case and installation:
      the aggregate and the latest snapshot equal the ledger, and today's used sticks equal the sticks accepted on the
      active case and are paid for by the claim. */
  lemma ReachableAgreement(config: Config, first: Day, steps: seq<Step>, c: CaseId, i: InstallationId)
    requires PossibleRun(Start(first), config, Gregorian(), steps) && config.tokenPerIncense > 0
    ensures var w := Run(Start(first), config, Gregorian(), steps);
            var db := w.db;
            c in db.cases ==>
              && c in db.stats && c in db.snapshots && db.snapshots[c] != []
              && var latest := db.snapshots[c][|db.snapshots[c]| - 1];
              && db.stats[c] == StatsRow(Total(db.votes, OnCase(c, Up)), Total(db.votes, OnCase(c, Down)), |Voters(db.votes, OfCase(c))|)
              && StatsRow(latest.up, latest.down, latest.uniqueVoters) == db.stats[c]
              && Contiguous(db.snapshots[c]) && |db.snapshots[c]| <= 200 && (db.snapshots[c][0].sequence == 1 || |db.snapshots[c]| == 200)
              && (db.cases[c].active && (i, db.cases[c].day) in db.incense ==>
                    var row := db.incense[(i, db.cases[c].day)];
                    row.used == Total(db.votes, ByOn(i, c)) && row.used * row.tokenPerIncense <= row.claimed)
  {
    hide Run, PossibleRun, ArchiveTrue, CheckedTrue, VotesOk, ReceiptsOk, Partition, Extends, Gregorian, Total, Voters, Contiguous;
    StartHolds(Gregorian(), first);
    GregorianPartitions();
    RunKeepsInvariant(Start(first), config, Gregorian(), steps);
    var db := Run(Start(first), config, Gregorian(), steps).db;
    if c in db.cases {
      assert PublishedOk(db.snapshots[c], db.stats[c]);
      if (i, db.cases[c].day) in db.incense {
        assert BalanceOk(db.incense[(i, db.cases[c].day)]);
      }
    }
  }
}
