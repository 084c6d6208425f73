/** The authority's transactions, each as the whole change it makes to the tables. */
module Authority {
  import opened Common
  import opened Ledger
  import opened VoteBudget
  import opened Database
  import opened Archive

  /** A parsed vote request; an omitted count is 1. */
  datatype Intent = Intent(caseId: CaseId, direction: Direction, requestId: RequestId, count: nat)

  datatype VoteResult =
    | Accepted(direction: Direction, used: nat, remaining: nat, spent: nat, accepted: nat, replayed: bool)
    | Rejected(reason: Reason, message: string)

  // ----- replay -----

  predicate SameIntent(receipt: Receipt, intent: Intent) {
    receipt.caseId == intent.caseId && receipt.direction == intent.direction && receipt.requestedCount == intent.count
  }

  function UsedFor(db: Db, i: InstallationId, day: Day): nat {
    if (i, day) in db.incense then db.incense[(i, day)].used else 0
  }

  /** Answer a request id that already has a receipt: the stored disposition under today's counters, or a conflict. */
  function Replay(db: Db, i: InstallationId, intent: Intent, receipt: Receipt, active: CaseRow): VoteResult {
    if !SameIntent(receipt, intent) then
      Rejected(IdempotencyConflict, "request id was already used with a different payload")
    else if receipt.disposition.RejectedOnce? then
      Rejected(receipt.disposition.reason, receipt.disposition.message)
    else
      var stored := FindVote(db.votes, i, intent.requestId);
      if stored.None? then Rejected(InvalidIntent, "stored accepted vote is missing its ledger row")
      else Accepted(stored.value.direction, UsedFor(db, i, active.day), RemainingFor(db, i, active.day), 0, stored.value.accepted, true)
  }

  // ----- vote -----

  function RecordRejected(db: Db, i: InstallationId, intent: Intent, active: CaseRow, reason: Reason, message: string): (Db, VoteResult) {
    (db.(receipts := db.receipts[(i, intent.requestId) :=
       Receipt(intent.caseId, active.day, intent.direction, intent.count, RejectedOnce(reason, message))]),
     Rejected(reason, message))
  }

  function NewVote(db: Db, i: InstallationId, intent: Intent, day: Day, spent: nat, now: int): VoteRow {
    VoteRow(i, intent.requestId, intent.caseId, day, intent.direction, intent.count, spent,
            UsedFor(db, i, day) + spent, RemainingFor(db, i, day) - spent, now)
  }

  /** Spend, record the vote and its receipt, raise the aggregate and publish the snapshot that contains it. */
  function AcceptVote(db: Db, i: InstallationId, intent: Intent, active: CaseRow, spent: nat, now: int): Db {
    var first := i !in Voters(db.votes, OfCase(intent.caseId));
    var paid := SpendIncense(db, i, active.day, spent);
    var recorded := paid.(
      votes := db.votes + [NewVote(db, i, intent, active.day, spent, now)],
      receipts := db.receipts[(i, intent.requestId) :=
        Receipt(intent.caseId, active.day, intent.direction, intent.count, AcceptedOnce)]);
    PublishSnapshot(ApplyToStats(recorded, intent.caseId, intent.direction, spent, first), active.id, now)
  }

  function ClampedSpend(db: Db, i: InstallationId, intent: Intent, day: Day, maxSpend: Limit): nat {
    var c := ClampVoteSpend(intent.count, RemainingFor(db, i, day), maxSpend);
    if c.Spend? then c.sticks else 0
  }

  const NO_INCENSE := "no remaining incense today"

  /** The vote transaction. `active` is the case the caller's process read before it began, and may be stale by now. */
  function Vote(db: Db, config: Config, i: InstallationId, intent: Intent, active: CaseRow, now: int, maxSpend: Limit): (Db, VoteResult) {
    if (i, intent.requestId) in db.receipts then
      (db, Replay(db, i, intent, db.receipts[(i, intent.requestId)], active))
    else if intent.caseId !in db.cases then
      RecordRejected(db, i, intent, active, StaleCase, "case " + intent.caseId + " does not exist")
    else if !db.cases[intent.caseId].active then
      RecordRejected(db, i, intent, active, CaseNotActive, "case " + intent.caseId + " is closed")
    else if intent.caseId != active.id || db.cases[intent.caseId].day != active.day then
      RecordRejected(db, i, intent, active, StaleCase, "case " + intent.caseId + " is not the active case")
    else
      var ready := EnsureRow(db, config, i, db.cases[intent.caseId]);
      var spent := ClampedSpend(ready, i, intent, active.day, maxSpend);
      if spent < 1 || !CanSpend(ready, i, active.day, spent) then
        RecordRejected(ready, i, intent, active, InsufficientIncense, NO_INCENSE)
      else
        var after := AcceptVote(ready, i, intent, active, spent, now);
        (after, Accepted(intent.direction, UsedFor(after, i, active.day), RemainingFor(after, i, active.day), spent, spent, false))
  }

  // ----- claims -----

  datatype ClaimOutcome = Applied(capped: bool) | BelowWatermark | WrongDate

  /** The ratchet target: a single jump beyond the ceiling is cut to the ceiling. */
  function ClaimTarget(claimed: nat, requested: nat, ceiling: nat): nat {
    if ceiling > 0 && requested > claimed + ceiling then claimed + ceiling else requested
  }

  function ApplyTokenClaim(db: Db, config: Config, i: InstallationId, caseRow: CaseRow, claimDay: Day, requested: nat): (Db, ClaimOutcome) {
    if claimDay != caseRow.day then (db, WrongDate)
    else
      var ready := EnsureRow(db, config, i, caseRow);
      var claimed := if (i, caseRow.day) in ready.incense then ready.incense[(i, caseRow.day)].claimed else 0;
      if requested <= claimed then (ready, BelowWatermark)
      else
        var target := ClaimTarget(claimed, requested, config.absurdClaimTokens);
        (RaiseClaim(ready, i, caseRow.day, target), Applied(target != requested))
  }

  // ----- opening, rotating and resetting cases -----

  function NewCase(id: CaseId, day: Day, title: string, config: Config, now: int): CaseRow {
    CaseRow(id, day, title, true, config.tokenPerIncense, now)
  }

  /** Close what is over, seal it, and open today's case unless one is open; None when the case id is taken. */
  ghost function Rotate(db: Db, config: Config, periods: Periods, id: CaseId, title: string, today: Day, now: int): Option<Db> {
    var closed := CloseCasesBefore(db, today);
    var sealed := closed.(archive := Finalize(closed, periods, today));
    if HasActive(sealed, today) then Some(sealed)
    else if id in sealed.cases then None
    else Some(OpenCase(sealed, NewCase(id, today, title, config, now), now))
  }

  /** Replace today's case by a new one and clear what was spent today; None when the case id is taken. */
  function PublishCase(db: Db, config: Config, id: CaseId, title: string, today: Day, now: int): Option<Db> {
    var closed := CloseCasesBefore(db, today);
    var cleared := ResetUsedFor(if HasActive(closed, today) then CloseActiveFor(closed, today) else closed, today);
    if id in cleared.cases then None
    else Some(OpenCase(cleared, NewCase(id, today, title, config, now), now))
  }

  function SurvivingCases(cases: map<CaseId, CaseRow>, day: Day): map<CaseId, CaseRow> {
    map c | c in cases && !(cases[c].day == day && !cases[c].active) :: cases[c]
  }

  function SurvivingReceipts(receipts: map<(InstallationId, RequestId), Receipt>, day: Day): map<(InstallationId, RequestId), Receipt> {
    map k | k in receipts && receipts[k].day != day :: receipts[k]
  }

  /** Delete one date's votes, receipts and closed cases; its active case starts over from nothing. */
  function WipeVotes(db: Db, day: Day, now: int): Db {
    var cases := SurvivingCases(db.cases, day);
    db.(votes := Kept(db.votes, NotOn(day)),
        receipts := SurvivingReceipts(db.receipts, day),
        cases := cases,
        stats := map c | c in cases :: if cases[c].day == day then StatsRow(0, 0, 0) else StatsFor(db, c),
        snapshots := map c | c in cases :: if cases[c].day == day then [SnapshotRow(1, 0, 0, 0, now)] else SnapshotsOf(db, c))
  }

  function ResetToday(db: Db, today: Day, now: int): Option<Db> {
    if HasActive(db, today) then Some(ResetUsedFor(WipeVotes(db, today, now), today)) else None
  }
}
