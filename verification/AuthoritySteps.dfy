/** Every transaction of the authority keeps the tables consistent. */
module AuthoritySteps {
  import opened Common
  import opened Ledger
  import opened VoteBudget
  import opened Database
  import opened Archive
  import opened Authority
  import opened Consistency

  // ----- votes -----

  lemma RejectKeepsConsistent(db: Db, i: InstallationId, intent: Intent, active: CaseRow, reason: Reason, message: string, today: Day)
    requires Consistent(db, today) && (i, intent.requestId) !in db.receipts && message != ""
    ensures Consistent(RecordRejected(db, i, intent, active, reason, message).0, today)
  {
    hide CasesOk, StatsOk, IncenseOk, UsedOk, SnapshotsOk;
    var receipt := Receipt(intent.caseId, active.day, intent.direction, intent.count, RejectedOnce(reason, message));
    RejectKeepsVotes(db.cases, db.incense, db.receipts, db.votes, (i, intent.requestId), receipt);
  }

  lemma RejectKeepsVotes(cases: Cases, incense: Incense, receipts: Receipts, votes: seq<VoteRow>, key: (InstallationId, RequestId), receipt: Receipt)
    requires VotesOk(cases, incense, receipts, votes) && ReceiptsOk(receipts, votes)
    requires key !in receipts && receipt.disposition.RejectedOnce? && receipt.disposition.message != ""
    ensures VotesOk(cases, incense, receipts[key := receipt], votes) && ReceiptsOk(receipts[key := receipt], votes)
  {
    forall v | v in votes ensures VoteOk(cases, incense, receipts[key := receipt], v) {
      assert VoteOk(cases, incense, receipts, v);
    }
  }

  lemma SpendKeepsIncense(incense: Incense, key: (InstallationId, Day), spent: nat)
    requires IncenseOk(incense) && key in incense
    requires (incense[key].used + spent) * incense[key].tokenPerIncense <= incense[key].claimed
    ensures IncenseOk(incense[key := incense[key].(used := incense[key].used + spent)])
  {
    assert BalanceOk(incense[key]);
  }

  lemma PublishKeepsSnapshots(stats: map<CaseId, StatsRow>, bumped: StatsRow, snapshots: map<CaseId, seq<SnapshotRow>>, c: CaseId, now: int)
    requires SnapshotsOk(stats, snapshots) && c in stats
    ensures var appended := snapshots[c] + [SnapshotRow(LatestSequence(snapshots[c]) + 1, bumped.up, bumped.down, bumped.uniqueVoters, now)];
            SnapshotsOk(stats[c := bumped], snapshots[c := Newer(appended, LatestSequence(appended) - SNAPSHOT_HISTORY_LIMIT)])
  {
    hide PublishedOk, LatestSequence, Newer;
    PublishKeepsSnapshot(snapshots[c], stats[c], bumped, now);
  }

  /** What an accepted vote does to each table, with the aggregate and the voter sets left abstract. */
  lemma AcceptedTables(db: Db, i: InstallationId, intent: Intent, active: CaseRow, spent: nat, now: int)
    requires intent.caseId == active.id && active.id in db.stats && active.id in db.snapshots && CanSpend(db, i, active.day, spent)
    ensures var k := (i, active.day);
            var v := NewVote(db, i, intent, active.day, spent, now);
            var bumped := BumpStats(db.stats[active.id], intent.direction, spent, i !in Voters(db.votes, OfCase(active.id)));
            var rows := db.snapshots[active.id];
            var appended := rows + [SnapshotRow(LatestSequence(rows) + 1, bumped.up, bumped.down, bumped.uniqueVoters, now)];
            AcceptVote(db, i, intent, active, spent, now) == db.(
              incense := db.incense[k := db.incense[k].(used := db.incense[k].used + spent)],
              votes := db.votes + [v],
              receipts := db.receipts[(i, intent.requestId) := Receipt(active.id, active.day, intent.direction, intent.count, AcceptedOnce)],
              stats := db.stats[active.id := bumped],
              snapshots := db.snapshots[active.id := Newer(appended, LatestSequence(appended) - SNAPSHOT_HISTORY_LIMIT)])
  {
    hide Voters, BumpStats, Newer, LatestSequence;
  }

  lemma AcceptKeepsConsistent(db: Db, i: InstallationId, intent: Intent, active: CaseRow, spent: nat, now: int, today: Day)
    requires Consistent(db, today) && (i, intent.requestId) !in db.receipts
    requires intent.caseId == active.id && active.id in db.cases
    requires db.cases[active.id].active && db.cases[active.id].day == active.day
    requires CanSpend(db, i, active.day, spent) && spent <= intent.count && spent <= VOTE_COUNT_MAX
    ensures Consistent(AcceptVote(db, i, intent, active, spent, now), today)
  {
    hide AcceptVote, CasesOk, VotesOk, ReceiptsOk, IncenseOk, UsedOk, Voters, BumpStats, Newer, LatestSequence, Recount, PublishedOk;
    var k := (i, active.day);
    var v := NewVote(db, i, intent, active.day, spent, now);
    var paid := db.incense[k := db.incense[k].(used := db.incense[k].used + spent)];
    var receipt := Receipt(active.id, active.day, intent.direction, intent.count, AcceptedOnce);
    var bumped := BumpStats(db.stats[active.id], intent.direction, spent, i !in Voters(db.votes, OfCase(active.id)));
    AcceptedTables(db, i, intent, active, spent, now);
    StatsAfterVote(db.cases, db.stats, db.votes, v);
    assert paid.Keys == db.incense.Keys;
    VotesAfterVote(db.cases, db.incense, paid, db.receipts, db.votes, v, receipt);
    UsedAfterVote(db.cases, db.incense, db.votes, v, today);
    SpendKeepsIncense(db.incense, k, spent);
    PublishKeepsSnapshots(db.stats, bumped, db.snapshots, active.id, now);
  }

  /** After the clamp nothing is left to refuse: a positive clamp passes the guard of the spend statement. */
  lemma ClampedSpendIsAffordable(db: Db, config: Config, i: InstallationId, intent: Intent, active: CaseRow, maxSpend: Limit)
    requires IncenseOk(db.incense) && active.tokenPerIncense > 0
    ensures var ready := EnsureRow(db, config, i, active);
            var spent := ClampedSpend(ready, i, intent, active.day, maxSpend);
            && (spent >= 1 ==> CanSpend(ready, i, active.day, spent))
            && spent <= intent.count && spent <= VOTE_COUNT_MAX
  {
    hide EnsureRow;
    EnsureRowOnlyAdds(db, config, i, active);
    var ready := EnsureRow(db, config, i, active);
    var row := ready.incense[(i, active.day)];
    assert BalanceOk(row);
    AffordabilityAgrees(row.claimed, row.used, row.tokenPerIncense, 0);
    AffordabilityAgrees(row.claimed, row.used, row.tokenPerIncense, ClampedSpend(ready, i, intent, active.day, maxSpend));
  }

  lemma VoteKeepsConsistent(db: Db, config: Config, i: InstallationId, intent: Intent, active: CaseRow, now: int, maxSpend: Limit, today: Day)
    requires Consistent(db, today)
    ensures Consistent(Vote(db, config, i, intent, active, now, maxSpend).0, today)
  {
    hide AcceptVote, StatsOk, VotesOk, ReceiptsOk, IncenseOk, UsedOk, SnapshotsOk, EnsureRow, ClampedSpend, CanSpend, RecordRejected;
    if (i, intent.requestId) in db.receipts {
    } else if intent.caseId !in db.cases {
      RejectKeepsConsistent(db, i, intent, active, StaleCase, "case " + intent.caseId + " does not exist", today);
    } else if !db.cases[intent.caseId].active {
      RejectKeepsConsistent(db, i, intent, active, CaseNotActive, "case " + intent.caseId + " is closed", today);
    } else if intent.caseId != active.id || db.cases[intent.caseId].day != active.day {
      RejectKeepsConsistent(db, i, intent, active, StaleCase, "case " + intent.caseId + " is not the active case", today);
    } else {
      var caseRow := db.cases[intent.caseId];
      var ready := EnsureRow(db, config, i, caseRow);
      var spent := ClampedSpend(ready, i, intent, active.day, maxSpend);
      EnsureRowKeepsConsistent(db, config, i, caseRow, today);
      ClampedSpendIsAffordable(db, config, i, intent, caseRow, maxSpend);
      if spent < 1 {
        RejectKeepsConsistent(ready, i, intent, active, InsufficientIncense, NO_INCENSE, today);
      } else {
        AcceptKeepsConsistent(ready, i, intent, active, spent, now, today);
      }
    }
  }

  /** A fresh request on the open case is accepted exactly when one stick is allowed, for the largest amount that the
      request, the balance, the single-vote maximum and the bucket all allow, and the balance pays exactly that. */
  lemma FreshVoteOutcome(db: Db, config: Config, i: InstallationId, intent: Intent, active: CaseRow, now: int, maxSpend: Limit, today: Day)
    requires Consistent(db, today) && (i, intent.requestId) !in db.receipts
    requires intent.caseId == active.id && active.id in db.cases
    requires db.cases[active.id].active && db.cases[active.id].day == active.day
    ensures var k := (i, active.day);
            var ready := EnsureRow(db, config, i, db.cases[active.id]);
            var remaining := RemainingFor(ready, i, active.day);
            var (after, r) := Vote(db, config, i, intent, active, now, maxSpend);
            && (r.Accepted? <==> Allows(intent.count, remaining, maxSpend, 1))
            && (r.Rejected? ==> r == Rejected(InsufficientIncense, NO_INCENSE) && after.incense == ready.incense)
            && (r.Accepted? ==>
                  && Allows(intent.count, remaining, maxSpend, r.accepted)
                  && (forall n :: n > r.accepted ==> !Allows(intent.count, remaining, maxSpend, n))
                  && r.spent == r.accepted && r.direction == intent.direction && !r.replayed
                  && k in ready.incense && after.incense == ready.incense[k := ready.incense[k].(used := ready.incense[k].used + r.accepted)]
                  && r.used == ready.incense[k].used + r.accepted && r.remaining == remaining - r.accepted)
  {
    hide EnsureRow, AcceptVote, CasesOk, StatsOk, VotesOk, ReceiptsOk, IncenseOk, UsedOk, Recount, PublishedOk, RecordRejected, RemainingFor,
         CanSpend, ClampedSpend;
    var caseRow := db.cases[active.id];
    var ready := EnsureRow(db, config, i, caseRow);
    CaseHasRate(db.cases, active.id);
    EnsureRowKeepsConsistent(db, config, i, caseRow, today);
    var spent := ClampedSpend(ready, i, intent, active.day, maxSpend);
    ClampedSpendIsAffordable(db, config, i, intent, caseRow, maxSpend);
    ClampedSpendIsLargest(ready, i, intent, active.day, maxSpend);
    RejectFrame(ready, i, intent, active, InsufficientIncense, NO_INCENSE);
    if spent >= 1 {
      AggregatesExist(ready.cases, ready.stats, ready.snapshots, ready.votes, active.id);
      AcceptedBalance(ready, i, intent, active, spent, now);
    }
  }

  /** Any other fresh request is refused, for being closed exactly when its case exists and is closed, and leaves nothing but
      its receipt: no balance row, no gift, no spend. */
  lemma OtherCasesAreRefused(db: Db, config: Config, i: InstallationId, intent: Intent, active: CaseRow, now: int, maxSpend: Limit)
    requires (i, intent.requestId) !in db.receipts
    requires !(intent.caseId == active.id && active.id in db.cases && db.cases[active.id].active && db.cases[active.id].day == active.day)
    ensures var (after, r) := Vote(db, config, i, intent, active, now, maxSpend);
            && r.Rejected? && r.message != ""
            && (r.reason == CaseNotActive <==> intent.caseId in db.cases && !db.cases[intent.caseId].active)
            && (r.reason != CaseNotActive ==> r.reason == StaleCase)
            && after == db.(receipts := db.receipts[(i, intent.requestId) :=
                 Receipt(intent.caseId, active.day, intent.direction, intent.count, RejectedOnce(r.reason, r.message))])
  {
    hide EnsureRow, AcceptVote, CanSpend, ClampedSpend;
  }

  lemma CaseHasRate(cases: Cases, c: CaseId)
    requires CasesOk(cases) && c in cases
    ensures cases[c].tokenPerIncense > 0
  {
  }

  lemma AggregatesExist(cases: Cases, stats: map<CaseId, StatsRow>, snapshots: map<CaseId, seq<SnapshotRow>>, votes: seq<VoteRow>, c: CaseId)
    requires StatsOk(cases, stats, votes) && SnapshotsOk(stats, snapshots) && c in cases
    ensures c in stats && c in snapshots
  {
    hide Recount, PublishedOk;
  }

  lemma RejectFrame(db: Db, i: InstallationId, intent: Intent, active: CaseRow, reason: Reason, message: string)
    ensures var (after, r) := RecordRejected(db, i, intent, active, reason, message);
            after == db.(receipts := after.receipts) && r == Rejected(reason, message)
  {
  }

  lemma ClampedSpendIsLargest(db: Db, i: InstallationId, intent: Intent, day: Day, maxSpend: Limit)
    ensures var remaining, spent := RemainingFor(db, i, day), ClampedSpend(db, i, intent, day, maxSpend);
            && (spent >= 1 <==> Allows(intent.count, remaining, maxSpend, 1))
            && (spent >= 1 ==> Allows(intent.count, remaining, maxSpend, spent))
            && forall n :: n > spent && n >= 1 ==> !Allows(intent.count, remaining, maxSpend, n)
  {
    hide RemainingFor;
  }

  lemma AcceptedBalance(db: Db, i: InstallationId, intent: Intent, active: CaseRow, spent: nat, now: int)
    requires intent.caseId == active.id && active.id in db.stats && active.id in db.snapshots && CanSpend(db, i, active.day, spent)
    requires IncenseOk(db.incense)
    ensures var k := (i, active.day);
            var after := AcceptVote(db, i, intent, active, spent, now);
            && k in db.incense && after.incense == db.incense[k := db.incense[k].(used := db.incense[k].used + spent)]
            && UsedFor(after, i, active.day) == db.incense[k].used + spent
            && RemainingFor(after, i, active.day) == RemainingFor(db, i, active.day) - spent
  {
    hide AcceptVote, IncenseOk;
    AcceptedTables(db, i, intent, active, spent, now);
    BalanceAfterSpend(db.incense, (i, active.day), spent);
  }

  lemma BalanceAfterSpend(incense: Incense, k: (InstallationId, Day), spent: nat)
    requires IncenseOk(incense) && k in incense && (incense[k].used + spent) * incense[k].tokenPerIncense <= incense[k].claimed
    ensures RemainingOf(incense[k].(used := incense[k].used + spent)) == RemainingOf(incense[k]) - spent
  {
    assert BalanceOk(incense[k]);
    AffordabilityAgrees(incense[k].claimed, incense[k].used, incense[k].tokenPerIncense, spent);
    AffordabilityAgrees(incense[k].claimed, incense[k].used, incense[k].tokenPerIncense, 0);
  }

  // ----- claims -----

  lemma RaisedRow(incense: Incense, key: (InstallationId, Day), claimed: nat)
    requires IncenseOk(incense) && key in incense && incense[key].claimed < claimed
    ensures var after := incense[key := incense[key].(claimed := claimed)];
            && IncenseOk(after) && after.Keys == incense.Keys && forall k :: k in incense ==> after[k].used == incense[k].used
  {
    assert BalanceOk(incense[key]);
    var row := incense[key].(claimed := claimed);
    assert BalanceOk(row);
    assert incense[key := row].Keys == incense.Keys;
  }

  lemma RaiseKeepsIncense(db: Db, i: InstallationId, day: Day, claimed: nat)
    requires IncenseOk(db.incense)
    ensures var after := RaiseClaim(db, i, day, claimed);
            && after == db.(incense := after.incense) && IncenseOk(after.incense) && after.incense.Keys == db.incense.Keys
            && forall k :: k in db.incense ==> after.incense[k].used == db.incense[k].used
  {
    hide IncenseOk;
    if (i, day) in db.incense && db.incense[(i, day)].claimed < claimed {
      RaisedRow(db.incense, (i, day), claimed);
    }
  }

  lemma RaiseKeepsConsistent(db: Db, i: InstallationId, day: Day, claimed: nat, today: Day)
    requires Consistent(db, today)
    ensures var after := RaiseClaim(db, i, day, claimed); Consistent(after, today) && after == db.(incense := after.incense)
  {
    hide CasesOk, StatsOk, VotesOk, ReceiptsOk, IncenseOk, SnapshotsOk, UsedOk, RaiseClaim;
    RaiseKeepsIncense(db, i, day, claimed);
    var after := RaiseClaim(db, i, day, claimed).incense;
    VotesKeepRows(db.cases, db.incense, after, db.receipts, db.votes);
    SameUsed(db.cases, db.incense, after, db.votes, today);
  }

  lemma SameUsed(cases: Cases, incense: Incense, after: Incense, votes: seq<VoteRow>, today: Day)
    requires UsedOk(cases, incense, votes, today) && after.Keys == incense.Keys
    requires forall k :: k in incense ==> after[k].used == incense[k].used
    ensures UsedOk(cases, after, votes, today)
  {
  }

  lemma ClaimKeepsConsistent(db: Db, config: Config, i: InstallationId, caseRow: CaseRow, claimDay: Day, requested: nat, today: Day)
    requires Consistent(db, today) && caseRow.tokenPerIncense > 0
    ensures var after := ApplyTokenClaim(db, config, i, caseRow, claimDay, requested).0;
            Consistent(after, today) && after == db.(incense := after.incense, grants := after.grants)
  {
    hide Consistent, EnsureRow, RaiseClaim, ClaimTarget;
    EnsureRowKeepsConsistent(db, config, i, caseRow, today);
    var ready := EnsureRow(db, config, i, caseRow);
    var claimed := if (i, caseRow.day) in ready.incense then ready.incense[(i, caseRow.day)].claimed else 0;
    RaiseKeepsConsistent(ready, i, caseRow.day, ClaimTarget(claimed, requested, config.absurdClaimTokens), today);
  }

  // ----- rotation -----

  lemma CloseBeforeKeepsConsistent(db: Db, today: Day, later: Day)
    requires Consistent(db, today) && today <= later
    ensures var after := CloseCasesBefore(db, later);
            && after == db.(cases := after.cases) && Consistent(after, later) && OnlyCloses(db.cases, after.cases)
            && forall c :: c in after.cases && after.cases[c].active ==> after.cases[c].day >= later
  {
    hide Consistent;
    ClosingKeepsConsistent(db, CloseCasesBefore(db, later).cases, today, later);
  }

  /** With no case open on the latest date nothing has been used on it. */
  lemma UnopenedUnused(cases: Cases, incense: Incense, votes: seq<VoteRow>, today: Day)
    requires UsedOk(cases, incense, votes, today) && NoneActive(cases, today)
    ensures Unused(incense, today)
  {
  }

  lemma NotActiveIsNone(db: Db, day: Day)
    ensures HasActive(db, day) <==> !NoneActive(db.cases, day)
  {
    forall c | c in db.cases && db.cases[c].active && db.cases[c].day == day ensures HasActive(db, day) {
      assert ActiveOn(db, day, c);
    }
  }

  lemma RotateKeepsConsistent(db: Db, config: Config, periods: Periods, id: CaseId, title: string, today: Day, later: Day, now: int)
    requires Consistent(db, today) && today <= later && config.tokenPerIncense > 0
    ensures var r := Rotate(db, config, periods, id, title, later, now);
            r.Some? ==> Consistent(r.value, later) && HasActive(r.value, later)
  {
    hide CasesOk, StatsOk, VotesOk, ReceiptsOk, IncenseOk, UsedOk, SnapshotsOk, CloseCasesBefore, OpenCase, HasActive;
    CloseBeforeKeepsConsistent(db, today, later);
    var closed := CloseCasesBefore(db, later);
    var sealed := closed.(archive := Finalize(closed, periods, later));
    if !HasActive(sealed, later) && id !in sealed.cases {
      OpensToday(sealed, NewCase(id, later, title, config, now), later, now);
    }
  }

  lemma OpensToday(db: Db, row: CaseRow, today: Day, now: int)
    requires Consistent(db, today) && !HasActive(db, today) && row.id !in db.cases
    requires row.day == today && row.active && row.tokenPerIncense > 0
    ensures Consistent(OpenCase(db, row, now), today) && HasActive(OpenCase(db, row, now), today)
  {
    hide CasesOk, StatsOk, VotesOk, ReceiptsOk, IncenseOk, UsedOk, SnapshotsOk;
    NotActiveIsNone(db, today);
    UnopenedUnused(db.cases, db.incense, db.votes, today);
    OpeningKeepsConsistent(db, row, today, now);
    assert ActiveOn(OpenCase(db, row, now), today, row.id);
  }

  // ----- publishing a case -----

  lemma CloseTodayUsed(cases: Cases, after: Cases, incense: Incense, votes: seq<VoteRow>, today: Day, day: Day)
    requires UsedOk(cases, incense, votes, today) && OnlyCloses(cases, after)
    requires forall c :: c in cases && cases[c].day != day ==> after[c] == cases[c]
    ensures UsedElsewhere(after, incense, votes, today, day)
  {
    var others := map k | k in incense && k.1 != day :: incense[k];
    forall k | k in others && k.1 >= today && forall c :: c in after && after[c].active ==> after[c].day != k.1
      ensures others[k].used == 0
    {
      forall c | c in cases && cases[c].active ensures cases[c].day != k.1 {
        assert c in after;
      }
    }
  }

  /** Clearing what was spent on a date restores the balance of a ledger that is right on every other date. */
  lemma ClearKeepsConsistent(db: Db, today: Day, day: Day)
    requires CasesOk(db.cases) && StatsOk(db.cases, db.stats, db.votes)
    requires VotesOk(db.cases, db.incense, db.receipts, db.votes) && ReceiptsOk(db.receipts, db.votes)
    requires IncenseOk(db.incense) && SnapshotsOk(db.stats, db.snapshots)
    requires UsedElsewhere(db.cases, db.incense, db.votes, today, day) && NothingOn(db.cases, db.incense, db.votes, day)
    ensures var after := ResetUsedFor(db, day);
            after == db.(incense := after.incense) && Consistent(after, today) && Unused(after.incense, day)
  {
    hide CasesOk, StatsOk, VotesOk, ReceiptsOk, IncenseOk, UsedOk, SnapshotsOk, ResetUsedFor, UsedElsewhere, NothingOn, Unused;
    ResetOnlyClears(db, day);
    var after := ResetUsedFor(db, day).incense;
    ClearedUsedOk(db.cases, db.incense, after, db.votes, today, day);
    VotesKeepRows(db.cases, db.incense, after, db.receipts, db.votes);
  }

  lemma NothingOnClosed(cases: Cases, incense: Incense, votes: seq<VoteRow>, day: Day)
    requires NoneActive(cases, day)
    ensures NothingOn(cases, incense, votes, day)
  {
  }

  /** Close every case of a date and clear what was spent on it. */
  lemma ClearedDay(db: Db, today: Day)
    requires Consistent(db, today)
    ensures var closed := if HasActive(db, today) then CloseActiveFor(db, today) else db;
            var after := ResetUsedFor(closed, today);
            && after == db.(cases := after.cases, incense := after.incense) && Consistent(after, today)
            && OnlyCloses(db.cases, after.cases) && NoneActive(after.cases, today) && Unused(after.incense, today)
            && forall c :: c in db.cases && db.cases[c].day != today ==> after.cases[c] == db.cases[c]
  {
    hide CasesOk, StatsOk, VotesOk, ReceiptsOk, IncenseOk, UsedOk, SnapshotsOk, ResetUsedFor, UsedElsewhere, NothingOn, Unused, HasActive;
    NotActiveIsNone(db, today);
    var closed := if HasActive(db, today) then CloseActiveFor(db, today) else db;
    CloseKeepsCases(db.cases, closed.cases, db.stats, db.votes);
    CloseKeepsVotes(db.cases, closed.cases, db.incense, db.receipts, db.votes);
    CloseTodayUsed(db.cases, closed.cases, db.incense, db.votes, today, today);
    NothingOnClosed(closed.cases, db.incense, db.votes, today);
    ClearKeepsConsistent(closed, today, today);
  }

  lemma PublishCaseKeepsConsistent(db: Db, config: Config, id: CaseId, title: string, today: Day, later: Day, now: int)
    requires Consistent(db, today) && today <= later && config.tokenPerIncense > 0
    ensures var r := PublishCase(db, config, id, title, later, now);
            r.Some? ==> Consistent(r.value, later) && HasActive(r.value, later)
  {
    hide CasesOk, StatsOk, VotesOk, ReceiptsOk, IncenseOk, UsedOk, SnapshotsOk, CloseCasesBefore, CloseActiveFor, ResetUsedFor, HasActive;
    CloseBeforeKeepsConsistent(db, today, later);
    var closed := CloseCasesBefore(db, later);
    ClearedDay(closed, later);
    var cleared := ResetUsedFor(if HasActive(closed, later) then CloseActiveFor(closed, later) else closed, later);
    NotActiveIsNone(cleared, later);
    if id !in cleared.cases {
      OpensToday(cleared, NewCase(id, later, title, config, now), later, now);
    }
  }

  // ----- resetting a date -----

  lemma ResetKeepsVotes(cases: Cases, incense: Incense, receipts: Receipts, votes: seq<VoteRow>, day: Day)
    requires VotesOk(cases, incense, receipts, votes) && ReceiptsOk(receipts, votes)
    ensures VotesOk(SurvivingCases(cases, day), incense, SurvivingReceipts(receipts, day), Kept(votes, NotOn(day)))
    ensures ReceiptsOk(SurvivingReceipts(receipts, day), Kept(votes, NotOn(day)))
  {
    KeysUniqueKept(votes, NotOn(day));
    var kept, left := Kept(votes, NotOn(day)), SurvivingReceipts(receipts, day);
    forall v | v in kept ensures VoteOk(SurvivingCases(cases, day), incense, left, v) {
      assert VoteOk(cases, incense, receipts, v);
    }
    forall k | k in left && left[k].disposition.AcceptedOnce? ensures FindVote(kept, k.0, k.1).Some? {
      var v := FindVote(votes, k.0, k.1).value;
      assert VoteOk(cases, incense, receipts, v);
      assert v in kept;
    }
  }

  lemma RecountKept(votes: seq<VoteRow>, day: Day, c: CaseId, on: Day)
    requires forall v :: v in votes && v.caseId == c ==> v.day == on
    ensures Recount(Kept(votes, NotOn(day)), c) == if on == day then StatsRow(0, 0, 0) else Recount(votes, c)
  {
    hide Voters;
    if on == day {
      NoVotesYet(Kept(votes, NotOn(day)), c);
    } else {
      TotalKept(votes, NotOn(day), OnCase(c, Up));
      TotalKept(votes, NotOn(day), OnCase(c, Down));
      VotersKept(votes, NotOn(day), OfCase(c));
    }
  }

  predicate DatedByCase(cases: Cases, votes: seq<VoteRow>) {
    forall v :: v in votes ==> v.caseId in cases && cases[v.caseId].day == v.day
  }

  lemma VotesAreDated(cases: Cases, incense: Incense, receipts: Receipts, votes: seq<VoteRow>)
    requires VotesOk(cases, incense, receipts, votes)
    ensures DatedByCase(cases, votes)
  {
    forall v | v in votes ensures v.caseId in cases && cases[v.caseId].day == v.day {
      assert VoteOk(cases, incense, receipts, v);
    }
  }

  lemma ResetKeepsStats(cases: Cases, stats: map<CaseId, StatsRow>, after: map<CaseId, StatsRow>, votes: seq<VoteRow>, day: Day)
    requires StatsOk(cases, stats, votes) && DatedByCase(cases, votes)
    requires after.Keys == SurvivingCases(cases, day).Keys
    requires forall c :: c in after ==> after[c] == if cases[c].day == day then StatsRow(0, 0, 0) else stats[c]
    ensures StatsOk(SurvivingCases(cases, day), after, Kept(votes, NotOn(day)))
  {
    hide Recount, Kept;
    forall c | c in after ensures after[c] == Recount(Kept(votes, NotOn(day)), c) {
      RecountKept(votes, day, c, cases[c].day);
    }
  }

  lemma TotalOfWiped(cases: Cases, votes: seq<VoteRow>, day: Day, i: InstallationId, c: CaseId)
    requires DatedByCase(cases, votes) && c in cases
    ensures Total(Kept(votes, NotOn(day)), ByOn(i, c)) == if cases[c].day == day then 0 else Total(votes, ByOn(i, c))
  {
    if cases[c].day == day {
      TotalNone(Kept(votes, NotOn(day)), ByOn(i, c));
    } else {
      TotalKept(votes, NotOn(day), ByOn(i, c));
    }
  }

  lemma ResetKeepsUsed(cases: Cases, incense: Incense, votes: seq<VoteRow>, today: Day, day: Day)
    requires UsedOk(cases, incense, votes, today) && DatedByCase(cases, votes)
    ensures UsedElsewhere(SurvivingCases(cases, day), incense, Kept(votes, NotOn(day)), today, day)
    ensures NothingOn(SurvivingCases(cases, day), incense, Kept(votes, NotOn(day)), day)
  {
    hide DatedByCase, Kept, Total;
    var left := SurvivingCases(cases, day);
    forall i, c | c in cases
      ensures Total(Kept(votes, NotOn(day)), ByOn(i, c)) == if cases[c].day == day then 0 else Total(votes, ByOn(i, c))
    {
      TotalOfWiped(cases, votes, day, i, c);
    }
    forall d | forall c :: c in left && left[c].active ==> left[c].day != d
      ensures NoneActive(cases, d)
    {
      forall c | c in cases && cases[c].active ensures cases[c].day != d {
        assert c in left;
      }
    }
  }

  lemma ResetKeepsSnapshots(stats: map<CaseId, StatsRow>, after: map<CaseId, StatsRow>, snapshots: map<CaseId, seq<SnapshotRow>>,
                            published: map<CaseId, seq<SnapshotRow>>, now: int)
    requires SnapshotsOk(stats, snapshots) && after.Keys == published.Keys && after.Keys <= stats.Keys
    requires forall c :: c in after ==>
               (after[c] == stats[c] && published[c] == snapshots[c])
               || (after[c] == StatsRow(0, 0, 0) && published[c] == [SnapshotRow(1, 0, 0, 0, now)])
    ensures SnapshotsOk(after, published)
  {
  }

  lemma WipedAggregates(db: Db, day: Day, now: int)
    requires StatsOk(db.cases, db.stats, db.votes) && SnapshotsOk(db.stats, db.snapshots) && DatedByCase(db.cases, db.votes)
    ensures var wiped := WipeVotes(db, day, now);
            StatsOk(wiped.cases, wiped.stats, wiped.votes) && SnapshotsOk(wiped.stats, wiped.snapshots)
  {
    hide Recount, PublishedOk, Kept, DatedByCase;
    var wiped := WipeVotes(db, day, now);
    ResetKeepsStats(db.cases, db.stats, wiped.stats, db.votes, day);
    ResetKeepsSnapshots(db.stats, wiped.stats, db.snapshots, wiped.snapshots, now);
  }

  /** Wiping a date leaves a state as if nobody had voted on it. */
  lemma ResetKeepsConsistent(db: Db, today: Day, now: int)
    requires Consistent(db, today)
    ensures var r := ResetToday(db, today, now);
            r.Some? ==> Consistent(r.value, today) && r.value.votes == Kept(db.votes, NotOn(today))
                        && r.value.cases == SurvivingCases(db.cases, today) && r.value.archive == db.archive
  {
    hide CasesOk, StatsOk, VotesOk, ReceiptsOk, IncenseOk, UsedOk, SnapshotsOk, Kept, ResetUsedFor, HasActive, DatedByCase,
         UsedElsewhere, NothingOn, SurvivingCases, SurvivingReceipts;
    VotesAreDated(db.cases, db.incense, db.receipts, db.votes);
    WipedAggregates(db, today, now);
    ResetKeepsVotes(db.cases, db.incense, db.receipts, db.votes, today);
    ResetKeepsUsed(db.cases, db.incense, db.votes, today, today);
    SurvivorsOk(db.cases, today);
    ClearKeepsConsistent(WipeVotes(db, today, now), today, today);
  }

  lemma SurvivorsOk(cases: Cases, day: Day)
    requires CasesOk(cases)
    ensures CasesOk(SurvivingCases(cases, day))
  {
  }
}
