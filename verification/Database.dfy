/** The authority's tables and the statements that change them, each an atomic update of one database value. */
module Database {
  import opened Common
  import opened Ledger
  import opened VoteBudget

  type Fingerprint = string

  datatype CaseRow = CaseRow(id: CaseId, day: Day, title: string, active: bool, tokenPerIncense: nat, openedAt: int)

  datatype StatsRow = StatsRow(up: nat, down: nat, uniqueVoters: nat)

  datatype IncenseRow = IncenseRow(claimed: nat, used: nat, tokenPerIncense: nat, starter: nat)

  datatype Reason = InsufficientIncense | CaseNotActive | StaleCase | IdempotencyConflict | InvalidIntent

  /** What a request id came to, for ever. */
  datatype Disposition = AcceptedOnce | RejectedOnce(reason: Reason, message: string)

  datatype Receipt = Receipt(caseId: CaseId, day: Day, direction: Direction, requestedCount: nat, disposition: Disposition)

  datatype SnapshotRow = SnapshotRow(sequence: nat, up: nat, down: nat, uniqueVoters: nat, capturedAt: int)

  datatype DayRow = DayRow(caseCount: nat, up: nat, down: nat, uniqueVoters: nat, version: nat)

  datatype PeriodRow = PeriodRow(end: Day, coveredDays: nat, up: nat, down: nat, uniqueVoters: nat, version: nat)

  /** Sealed days, and sealed weeks and months by their first day. */
  datatype Archive = Archive(version: nat, days: map<Day, DayRow>, weeks: map<Day, PeriodRow>, months: map<Day, PeriodRow>)

  datatype Identity = Identity(publicKey: string, fingerprint: Fingerprint, lastSeenAt: int)

  datatype Grant = Grant(installationId: InstallationId, tokens: nat)

  datatype TicketStatus = Active | Exhausted | Revoked | Expired

  datatype Ticket = Ticket(maxClaims: nat, claimedCount: nat, status: TicketStatus, expiresAt: int)

  datatype Db = Db(
    cases: map<CaseId, CaseRow>,
    stats: map<CaseId, StatsRow>,
    incense: map<(InstallationId, Day), IncenseRow>,
    votes: seq<VoteRow>,
    receipts: map<(InstallationId, RequestId), Receipt>,
    snapshots: map<CaseId, seq<SnapshotRow>>,
    archive: Archive,
    identities: map<InstallationId, Identity>,
    grants: map<(Fingerprint, Day), Grant>,
    tickets: map<string, Ticket>)

  datatype Config = Config(tokenPerIncense: nat, starterIncenseCount: nat, absurdClaimTokens: nat, snapshotRefreshMs: int)

  const SNAPSHOT_HISTORY_LIMIT := 200

  const EMPTY_DB := Db(map[], map[], map[], [], map[], map[], Archive(0, map[], map[], map[]), map[], map[], map[])

  // ----- cases -----

  predicate ActiveOn(db: Db, day: Day, c: CaseId) {
    c in db.cases && db.cases[c].active && db.cases[c].day == day
  }

  predicate HasActive(db: Db, day: Day) {
    exists c :: c in db.cases && ActiveOn(db, day, c)
  }

  function CloseCases(cases: map<CaseId, CaseRow>, closes: CaseRow -> bool): map<CaseId, CaseRow> {
    map c | c in cases :: if closes(cases[c]) then cases[c].(active := false) else cases[c]
  }

  function CloseCasesBefore(db: Db, day: Day): Db {
    db.(cases := CloseCases(db.cases, (row: CaseRow) => row.day < day))
  }

  function CloseActiveFor(db: Db, day: Day): Db {
    db.(cases := CloseCases(db.cases, (row: CaseRow) => row.day == day))
  }

  /** Open a case with an empty aggregate and its zero-vote snapshot. */
  function OpenCase(db: Db, row: CaseRow, now: int): Db {
    db.(cases := db.cases[row.id := row],
        stats := db.stats[row.id := StatsRow(0, 0, 0)],
        snapshots := db.snapshots[row.id := [SnapshotRow(1, 0, 0, 0, now)]])
  }

  function ResetUsedFor(db: Db, day: Day): Db {
    db.(incense := map k | k in db.incense :: if k.1 == day then db.incense[k].(used := 0) else db.incense[k])
  }

  // ----- incense -----

  function EnsureIncenseRow(db: Db, i: InstallationId, day: Day, tokenPerIncense: nat): Db {
    if (i, day) in db.incense then db
    else db.(incense := db.incense[(i, day) := IncenseRow(0, 0, tokenPerIncense, 0)])
  }

  function FingerprintOf(db: Db, i: InstallationId): Fingerprint {
    if i in db.identities then db.identities[i].fingerprint else ""
  }

  /** One gift per fingerprint and date; without a fingerprint, or once given, nothing changes. */
  function TryGrantStarter(db: Db, config: Config, i: InstallationId, caseRow: CaseRow): Db {
    var fingerprint := FingerprintOf(db, i);
    var tokens := config.starterIncenseCount * caseRow.tokenPerIncense;
    if config.starterIncenseCount == 0 || fingerprint == "" || (fingerprint, caseRow.day) in db.grants then db
    else
      var granted := db.(grants := db.grants[(fingerprint, caseRow.day) := Grant(i, tokens)]);
      if (i, caseRow.day) !in db.incense then granted
      else
        var row := db.incense[(i, caseRow.day)];
        granted.(incense := db.incense[(i, caseRow.day) := row.(claimed := row.claimed + tokens, starter := row.starter + tokens)])
  }

  function EnsureRow(db: Db, config: Config, i: InstallationId, caseRow: CaseRow): Db {
    TryGrantStarter(EnsureIncenseRow(db, i, caseRow.day, caseRow.tokenPerIncense), config, i, caseRow)
  }

  lemma GrantFrame(db: Db, config: Config, i: InstallationId, caseRow: CaseRow)
    ensures var after := TryGrantStarter(db, config, i, caseRow);
            after == db.(incense := after.incense, grants := after.grants) && db.incense.Keys <= after.incense.Keys
  {
  }

  /** Making sure of a balance row touches balances and grants only, and leaves a row. */
  lemma EnsureRowFrame(db: Db, config: Config, i: InstallationId, caseRow: CaseRow)
    ensures var after := EnsureRow(db, config, i, caseRow);
            after == db.(incense := after.incense, grants := after.grants) && (i, caseRow.day) in after.incense
  {
    hide TryGrantStarter;
    GrantFrame(EnsureIncenseRow(db, i, caseRow.day, caseRow.tokenPerIncense), config, i, caseRow);
  }

  /** floor(claimed / tokenPerIncense) - used, which the table CHECK keeps from going below zero. */
  function RemainingOf(row: IncenseRow): nat {
    if row.tokenPerIncense == 0 || row.claimed / row.tokenPerIncense < row.used then 0
    else row.claimed / row.tokenPerIncense - row.used
  }

  function RemainingFor(db: Db, i: InstallationId, day: Day): nat {
    if (i, day) in db.incense then RemainingOf(db.incense[(i, day)]) else 0
  }

  /** The WHERE clause of the spend statement. */
  predicate CanSpend(db: Db, i: InstallationId, day: Day, count: nat) {
    && count >= 1 && (i, day) in db.incense
    && (db.incense[(i, day)].used + count) * db.incense[(i, day)].tokenPerIncense <= db.incense[(i, day)].claimed
  }

  function SpendIncense(db: Db, i: InstallationId, day: Day, count: nat): Db {
    if CanSpend(db, i, day, count) then
      var row := db.incense[(i, day)];
      db.(incense := db.incense[(i, day) := row.(used := row.used + count)])
    else db
  }

  /** Monotonic ratchet. */
  function RaiseClaim(db: Db, i: InstallationId, day: Day, claimed: nat): Db {
    if (i, day) in db.incense && db.incense[(i, day)].claimed < claimed
    then db.(incense := db.incense[(i, day) := db.incense[(i, day)].(claimed := claimed)])
    else db
  }

  // ----- votes -----

  function FindVote(votes: seq<VoteRow>, i: InstallationId, request: RequestId): (found: Option<VoteRow>)
    ensures found.Some? ==> found.value in votes && found.value.installationId == i && found.value.requestId == request
    ensures found.None? ==> forall v :: v in votes ==> !(v.installationId == i && v.requestId == request)
  {
    if votes == [] then None
    else
      var last := votes[|votes| - 1];
      if last.installationId == i && last.requestId == request then Some(last)
      else FindVote(votes[..|votes| - 1], i, request)
  }

  function StatsFor(db: Db, c: CaseId): StatsRow {
    if c in db.stats then db.stats[c] else StatsRow(0, 0, 0)
  }

  function BumpStats(row: StatsRow, direction: Direction, count: nat, firstVoter: bool): StatsRow {
    StatsRow(row.up + (if direction == Up then count else 0), row.down + (if direction == Down then count else 0),
             row.uniqueVoters + (if firstVoter then 1 else 0))
  }

  function ApplyToStats(db: Db, c: CaseId, direction: Direction, count: nat, firstVoter: bool): Db {
    if c in db.stats then db.(stats := db.stats[c := BumpStats(db.stats[c], direction, count, firstVoter)]) else db
  }

  // ----- snapshots -----

  function LatestSequence(rows: seq<SnapshotRow>): nat {
    if rows == [] then 0 else rows[|rows| - 1].sequence
  }

  function Newer(rows: seq<SnapshotRow>, than: int): seq<SnapshotRow> {
    if rows == [] then []
    else
      var front := Newer(rows[..|rows| - 1], than);
      if rows[|rows| - 1].sequence > than then front + [rows[|rows| - 1]] else front
  }

  function SnapshotsOf(db: Db, c: CaseId): seq<SnapshotRow> {
    if c in db.snapshots then db.snapshots[c] else []
  }

  /** Append the current aggregate under the next sequence, then delete all but the newest 200 sequences. */
  function PublishSnapshot(db: Db, c: CaseId, now: int): Db {
    var rows, stats := SnapshotsOf(db, c), StatsFor(db, c);
    var appended := rows + [SnapshotRow(LatestSequence(rows) + 1, stats.up, stats.down, stats.uniqueVoters, now)];
    db.(snapshots := db.snapshots[c := Newer(appended, LatestSequence(appended) - SNAPSHOT_HISTORY_LIMIT)])
  }
}
