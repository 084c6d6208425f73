/** A request id has one disposition for a whole run, whatever happens in between, as long as its date is not wiped. */
module Idempotency {
  import opened Common
  import opened Ledger
  import opened VoteBudget
  import opened Database
  import opened Archive
  import opened Authority
  import opened Consistency
  import opened AuthoritySteps
  import opened AuthorityRuns

  /** Accepted receipts and ledger rows are in bijection: each key has both or neither, the two agree, and there is one row. */
  lemma ReceiptsMatchVotes(db: Db, today: Day, i: InstallationId, request: RequestId)
    requires Consistent(db, today)
    ensures var k := (i, request);
            var vote := FindVote(db.votes, i, request);
            && (k in db.receipts && db.receipts[k].disposition.AcceptedOnce? <==> vote.Some?)
            && (vote.Some? ==>
                  && Proves(db.receipts[k], vote.value)
                  && forall v :: v in db.votes && v.installationId == i && v.requestId == request ==> v == vote.value)
  {
    hide CasesOk, StatsOk, IncenseOk, UsedOk, SnapshotsOk, FindVote;
    var vote := FindVote(db.votes, i, request);
    if vote.Some? {
      assert VoteOk(db.cases, db.incense, db.receipts, vote.value);
    }
  }

  // ----- what is recorded stays -----

  /** Receipts are never changed or dropped, and the ledger only grows at its end. */
  predicate Grows(db: Db, after: Db) {
    && (forall k :: k in db.receipts ==> k in after.receipts && after.receipts[k] == db.receipts[k])
    && db.votes <= after.votes
  }

  lemma GrowsTransitive(a: Db, b: Db, c: Db)
    requires Grows(a, b) && Grows(b, c)
    ensures Grows(a, c)
  {
  }

  lemma RecordingGrows(db: Db, i: InstallationId, intent: Intent, active: CaseRow, reason: Reason, message: string)
    requires (i, intent.requestId) !in db.receipts
    ensures Grows(db, RecordRejected(db, i, intent, active, reason, message).0)
  {
  }

  lemma AcceptGrows(db: Db, i: InstallationId, intent: Intent, active: CaseRow, spent: nat, now: int)
    requires (i, intent.requestId) !in db.receipts
    ensures Grows(db, AcceptVote(db, i, intent, active, spent, now))
  {
    hide AcceptVote, NewVote;
    AcceptFrame(db, i, intent, active, spent, now);
  }

  lemma VoteGrows(db: Db, config: Config, i: InstallationId, intent: Intent, active: CaseRow, now: int, maxSpend: Limit)
    requires CasesOk(db.cases) && IncenseOk(db.incense)
    ensures Grows(db, Vote(db, config, i, intent, active, now, maxSpend).0)
  {
    hide CasesOk, IncenseOk, EnsureRow, ClampedSpend, CanSpend, AcceptVote, RecordRejected, Replay, Grows, OnlyAdds;
    GrowsItself(db);
    if (i, intent.requestId) in db.receipts {
    } else if intent.caseId !in db.cases {
      RecordingGrows(db, i, intent, active, StaleCase, "case " + intent.caseId + " does not exist");
    } else if !db.cases[intent.caseId].active {
      RecordingGrows(db, i, intent, active, CaseNotActive, "case " + intent.caseId + " is closed");
    } else if intent.caseId != active.id || db.cases[intent.caseId].day != active.day {
      RecordingGrows(db, i, intent, active, StaleCase, "case " + intent.caseId + " is not the active case");
    } else {
      CaseHasRate(db.cases, intent.caseId);
      EnsureRowOnlyAdds(db, config, i, db.cases[intent.caseId]);
      var ready := EnsureRow(db, config, i, db.cases[intent.caseId]);
      var spent := ClampedSpend(ready, i, intent, active.day, maxSpend);
      SameRowsGrow(db, ready);
      RecordingGrows(ready, i, intent, active, InsufficientIncense, NO_INCENSE);
      AcceptGrows(ready, i, intent, active, spent, now);
      GrowsTransitive(db, ready, Vote(db, config, i, intent, active, now, maxSpend).0);
    }
  }

  lemma SameRowsGrow(db: Db, after: Db)
    requires after.receipts == db.receipts && after.votes == db.votes
    ensures Grows(db, after)
  {
  }

  lemma RotateGrows(db: Db, config: Config, periods: Periods, id: CaseId, title: string, today: Day, now: int)
    ensures var r := Rotate(db, config, periods, id, title, today, now); r.Some? ==> Grows(db, r.value)
  {
    hide Finalize, HasActive, CloseCasesBefore;
    CloseFrame(db, today);
  }

  lemma StepGrows(w: World, config: Config, periods: Periods, step: Step)
    requires Consistent(w.db, w.today) && Possible(w, config, step) && !step.Reset?
    ensures Grows(w.db, Next(w, config, periods, step).db)
  {
    hide Vote, EnsureRow, ApplyTokenClaim, PublishCase, Rotate, Skips, CasesOk, StatsOk, VotesOk,
         ReceiptsOk, IncenseOk, UsedOk, SnapshotsOk;
    match step
    case EnsureCase(p, day, id, title, now) => RotateGrows(w.db, config, periods, id, title, day, now);
    case CastVote(i, intent, active, now, maxSpend) => VoteGrows(w.db, config, i, intent, active, now, maxSpend);
    case Touch(i, caseRow) => EnsureRowKeepsConsistent(w.db, config, i, caseRow, w.today);
    case Claim(i, caseRow, claimDay, requested) => ClaimKeepsConsistent(w.db, config, i, caseRow, claimDay, requested, w.today);
    case Publish(day, id, title, now) => PublishFrame(w.db, config, id, title, day, now);
    case Administer(_, _) =>
  }

  predicate NoWipes(steps: seq<Step>) {
    forall step :: step in steps ==> !step.Reset?
  }

  lemma {:induction false} RunGrows(w: World, config: Config, periods: Periods, steps: seq<Step>)
    requires Invariant(w, periods) && PossibleRun(w, config, periods, steps) && NoWipes(steps) && config.tokenPerIncense > 0
    requires Partition(periods.week) && Partition(periods.month)
    ensures Grows(w.db, Run(w, config, periods, steps).db) && Invariant(Run(w, config, periods, steps), periods)
    decreases |steps|
  {
    hide Consistent, ArchiveTrue, CheckedTrue, CasesUntil, Partition, Next, Possible, Extends, Grows;
    if steps == [] {
      assert Grows(w.db, w.db) by { GrowsItself(w.db); }
    } else {
      var next := Next(w, config, periods, steps[0]);
      StepGrows(w, config, periods, steps[0]);
      StepKeepsInvariant(w, config, periods, steps[0]);
      RunGrows(next, config, periods, steps[1..]);
      GrowsTransitive(w.db, next.db, Run(next, config, periods, steps[1..]).db);
    }
  }

  lemma GrowsItself(db: Db)
    ensures Grows(db, db)
  {
  }

  // ----- retries -----

  /** The same disposition: the accepted direction and amount, or the rejection's reason and message. The counters belong to
      the answering date, and a repeated answer never spends. */
  predicate SameAnswer(first: VoteResult, again: VoteResult) {
    match first
    case Accepted(direction, _, _, _, accepted, _) =>
      again.Accepted? && again.direction == direction && again.accepted == accepted && again.spent == 0 && again.replayed
    case Rejected(reason, message) => again == Rejected(reason, message)
  }

  /** What a recorded request says to anyone who asks again. */
  predicate Stored(db: Db, i: InstallationId, intent: Intent, result: VoteResult) {
    && (i, intent.requestId) in db.receipts
    && var receipt := db.receipts[(i, intent.requestId)];
    if !SameIntent(receipt, intent) then
      result == Rejected(IdempotencyConflict, "request id was already used with a different payload")
    else if receipt.disposition.RejectedOnce? then
      result == Rejected(receipt.disposition.reason, receipt.disposition.message)
    else
      && result.Accepted?
      && exists v :: v in db.votes && v.installationId == i && v.requestId == intent.requestId
                     && result.direction == v.direction && result.accepted == v.accepted
  }

  lemma RecordingStores(db: Db, i: InstallationId, intent: Intent, active: CaseRow, reason: Reason, message: string)
    ensures var (after, result) := RecordRejected(db, i, intent, active, reason, message); Stored(after, i, intent, result)
  {
  }

  /** Whatever a vote answered, the tables now hold. */
  lemma AnswerIsStored(db: Db, config: Config, i: InstallationId, intent: Intent, active: CaseRow, now: int, maxSpend: Limit, today: Day)
    requires Consistent(db, today)
    ensures var (after, result) := Vote(db, config, i, intent, active, now, maxSpend); Stored(after, i, intent, result)
  {
    hide Consistent, EnsureRow, ClampedSpend, CanSpend, AcceptVote, FindVote, RemainingFor, RecordRejected, Stored;
    if (i, intent.requestId) in db.receipts {
      ReplayIsStored(db, i, intent, active, today);
    } else if intent.caseId !in db.cases {
      RecordingStores(db, i, intent, active, StaleCase, "case " + intent.caseId + " does not exist");
    } else if !db.cases[intent.caseId].active {
      RecordingStores(db, i, intent, active, CaseNotActive, "case " + intent.caseId + " is closed");
    } else if intent.caseId != active.id || db.cases[intent.caseId].day != active.day {
      RecordingStores(db, i, intent, active, StaleCase, "case " + intent.caseId + " is not the active case");
    } else {
      var ready := EnsureRow(db, config, i, db.cases[intent.caseId]);
      var spent := ClampedSpend(ready, i, intent, active.day, maxSpend);
      RecordingStores(ready, i, intent, active, InsufficientIncense, NO_INCENSE);
      AcceptedIsStored(ready, i, intent, active, spent, now);
    }
  }

  lemma ReplayIsStored(db: Db, i: InstallationId, intent: Intent, active: CaseRow, today: Day)
    requires Consistent(db, today) && (i, intent.requestId) in db.receipts
    ensures Stored(db, i, intent, Replay(db, i, intent, db.receipts[(i, intent.requestId)], active))
  {
    hide Consistent, FindVote, RemainingFor;
    ReceiptsMatchVotes(db, today, i, intent.requestId);
  }

  lemma AcceptedIsStored(db: Db, i: InstallationId, intent: Intent, active: CaseRow, spent: nat, now: int)
    ensures var after := AcceptVote(db, i, intent, active, spent, now);
            forall used, remaining :: Stored(after, i, intent, Accepted(intent.direction, used, remaining, spent, spent, false))
  {
    hide AcceptVote, RemainingFor, UsedFor;
    AcceptFrame(db, i, intent, active, spent, now);
    var after := AcceptVote(db, i, intent, active, spent, now);
    assert after.votes[|db.votes|] in after.votes;
  }

  lemma StoredLater(db: Db, after: Db, i: InstallationId, intent: Intent, result: VoteResult)
    requires Stored(db, i, intent, result) && Grows(db, after)
    ensures Stored(after, i, intent, result)
  {
    assert forall v :: v in db.votes ==> v in after.votes;
  }

  /** Asking again changes nothing and answers what is stored. */
  lemma StoredIsAnswered(db: Db, config: Config, i: InstallationId, intent: Intent, result: VoteResult, active: CaseRow, now: int,
                         maxSpend: Limit, today: Day)
    requires Consistent(db, today) && Stored(db, i, intent, result)
    ensures var (after, again) := Vote(db, config, i, intent, active, now, maxSpend); after == db && SameAnswer(result, again)
  {
    hide Consistent, FindVote, RemainingFor;
    ReceiptsMatchVotes(db, today, i, intent.requestId);
  }

  /** A retry with the same payload, after any run without a wipe and under any active case and budget, gives the same
      disposition and changes no table. */
  lemma RetryAnswersTheSame(w: World, config: Config, periods: Periods, i: InstallationId, intent: Intent, active: CaseRow, now: int,
                            maxSpend: Limit, steps: seq<Step>, laterActive: CaseRow, later: int, laterMax: Limit)
    requires Invariant(w, periods) && config.tokenPerIncense > 0 && Partition(periods.week) && Partition(periods.month)
    requires var voted := w.(db := Vote(w.db, config, i, intent, active, now, maxSpend).0);
             PossibleRun(voted, config, periods, steps) && NoWipes(steps)
    ensures var (voted, first) := Vote(w.db, config, i, intent, active, now, maxSpend);
            var db := Run(w.(db := voted), config, periods, steps).db;
            var (after, again) := Vote(db, config, i, intent, laterActive, later, laterMax);
            after == db && SameAnswer(first, again)
  {
    hide Consistent, ArchiveTrue, CheckedTrue, CasesUntil, Partition, Vote, Run, PossibleRun, Stored, SameAnswer, Grows, Extends;
    var (db, first) := Vote(w.db, config, i, intent, active, now, maxSpend);
    var voted := w.(db := db);
    assert voted == Next(w, config, periods, CastVote(i, intent, active, now, maxSpend));
    StepKeepsInvariant(w, config, periods, CastVote(i, intent, active, now, maxSpend));
    AnswerIsStored(w.db, config, i, intent, active, now, maxSpend, w.today);
    RunGrows(voted, config, periods, steps);
    var end := Run(voted, config, periods, steps);
    StoredLater(db, end.db, i, intent, first);
    StoredIsAnswered(end.db, config, i, intent, first, laterActive, later, laterMax, end.today);
  }

  /** A known request id with another case, direction or count is refused, and the refusal is not recorded. */
  lemma OtherPayloadIsRefused(w: World, config: Config, periods: Periods, i: InstallationId, intent: Intent, active: CaseRow, now: int,
                              maxSpend: Limit, steps: seq<Step>, other: Intent, laterActive: CaseRow, later: int, laterMax: Limit)
    requires Invariant(w, periods) && config.tokenPerIncense > 0 && Partition(periods.week) && Partition(periods.month)
    requires (i, intent.requestId) !in w.db.receipts && other.requestId == intent.requestId && other != intent
    requires var voted := w.(db := Vote(w.db, config, i, intent, active, now, maxSpend).0);
             PossibleRun(voted, config, periods, steps) && NoWipes(steps)
    ensures var db := Run(w.(db := Vote(w.db, config, i, intent, active, now, maxSpend).0), config, periods, steps).db;
            Vote(db, config, i, other, laterActive, later, laterMax)
            == (db, Rejected(IdempotencyConflict, "request id was already used with a different payload"))
  {
    hide Consistent, ArchiveTrue, CheckedTrue, CasesUntil, Partition, Run, PossibleRun, Extends, AcceptVote, EnsureRow,
         ClampedSpend, CanSpend, Grows;
    var voted := w.(db := Vote(w.db, config, i, intent, active, now, maxSpend).0);
    FirstReceipt(w.db, config, i, intent, active, now, maxSpend);
    assert voted == Next(w, config, periods, CastVote(i, intent, active, now, maxSpend));
    StepKeepsInvariant(w, config, periods, CastVote(i, intent, active, now, maxSpend));
    RunGrows(voted, config, periods, steps);
    assert Grows(voted.db, Run(voted, config, periods, steps).db);
    ReceiptLater(voted.db, Run(voted, config, periods, steps).db, (i, intent.requestId));
  }

  lemma ReceiptLater(db: Db, after: Db, k: (InstallationId, RequestId))
    requires Grows(db, after) && k in db.receipts
    ensures k in after.receipts && after.receipts[k] == db.receipts[k]
  {
  }

  lemma RecordingKeepsIntent(db: Db, i: InstallationId, intent: Intent, active: CaseRow, reason: Reason, message: string)
    ensures var after := RecordRejected(db, i, intent, active, reason, message).0;
            (i, intent.requestId) in after.receipts && SameIntent(after.receipts[(i, intent.requestId)], intent)
  {
  }

  lemma FirstReceipt(db: Db, config: Config, i: InstallationId, intent: Intent, active: CaseRow, now: int, maxSpend: Limit)
    requires (i, intent.requestId) !in db.receipts
    ensures var after := Vote(db, config, i, intent, active, now, maxSpend).0;
            (i, intent.requestId) in after.receipts && SameIntent(after.receipts[(i, intent.requestId)], intent)
  {
    hide EnsureRow, ClampedSpend, CanSpend, AcceptVote, NewVote, RecordRejected;
    RecordingKeepsIntent(db, i, intent, active, StaleCase, "case " + intent.caseId + " does not exist");
    RecordingKeepsIntent(db, i, intent, active, CaseNotActive, "case " + intent.caseId + " is closed");
    RecordingKeepsIntent(db, i, intent, active, StaleCase, "case " + intent.caseId + " is not the active case");
    if intent.caseId in db.cases {
      var ready := EnsureRow(db, config, i, db.cases[intent.caseId]);
      RecordingKeepsIntent(ready, i, intent, active, InsufficientIncense, NO_INCENSE);
      AcceptFrame(ready, i, intent, active, ClampedSpend(ready, i, intent, active.day, maxSpend), now);
    }
  }
}
