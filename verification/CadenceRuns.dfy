/** The snapshot cadence beside the other steps of a run: a tick reads the aggregate, then the latest snapshot, and only
    then opens the transaction that inserts, so that other processes may come in between. */
module CadenceRuns {
  import opened Common
  import opened Ledger
  import opened VoteBudget
  import opened Database
  import opened Archive
  import opened Authority
  import opened Consistency
  import opened AuthoritySteps
  import opened AuthorityRuns

  /** What a tick has read so far. */
  datatype Tick =
    | StatsRead(c: CaseId, now: int, stats: StatsRow)
    | BothRead(c: CaseId, now: int, stats: StatsRow, latest: Option<SnapshotRow>)

  /** `clock` is the largest time any request was stamped with. */
  datatype State = State(world: World, clock: int, ticks: map<Process, Tick>)

  datatype Move =
    | Act(step: Step)
    | ReadStats(process: Process, c: CaseId, now: int)
    | ReadLatest(process: Process)
    | Insert(process: Process)

  // ----- the statements -----

  function LatestOf(rows: seq<SnapshotRow>): Option<SnapshotRow> {
    if rows == [] then None else Some(rows[|rows| - 1])
  }

  function Shown(row: SnapshotRow): StatsRow { StatsRow(row.up, row.down, row.uniqueVoters) }

  /** Publish when the aggregate moved and the refresh interval has passed, or when nothing is published. */
  predicate PublishDue(latest: Option<SnapshotRow>, config: Config, stats: StatsRow, now: int) {
    latest.None? || (Shown(latest.value) != stats && now - latest.value.capturedAt >= config.snapshotRefreshMs)
  }

  function NextRow(latest: Option<SnapshotRow>, stats: StatsRow, now: int): SnapshotRow {
    SnapshotRow((if latest.Some? then latest.value.sequence else 0) + 1, stats.up, stats.down, stats.uniqueVoters, now)
  }

  function UpTo(rows: seq<SnapshotRow>, last: int): seq<SnapshotRow> {
    if rows == [] then []
    else
      var front := UpTo(rows[..|rows| - 1], last);
      if rows[|rows| - 1].sequence <= last then front + [rows[|rows| - 1]] else front
  }

  predicate Taken(rows: seq<SnapshotRow>, sequence: nat) {
    exists row :: row in rows && row.sequence == sequence
  }

  /** The publishing transaction: insert in sequence order and prune, or nothing when the sequence is taken. */
  function Inserted(rows: seq<SnapshotRow>, row: SnapshotRow): seq<SnapshotRow> {
    if Taken(rows, row.sequence) then rows
    else
      var all := UpTo(rows, row.sequence) + [row] + Newer(rows, row.sequence);
      Newer(all, LatestSequence(all) - SNAPSHOT_HISTORY_LIMIT)
  }

  /** A foreign key drops the snapshot of a case that is gone. */
  function Published(db: Db, config: Config, tick: Tick): Db
    requires tick.BothRead?
  {
    if !PublishDue(tick.latest, config, tick.stats, tick.now) || tick.c !in db.cases then db
    else db.(snapshots := db.snapshots[tick.c := Inserted(SnapshotsOf(db, tick.c), NextRow(tick.latest, tick.stats, tick.now))])
  }

  function Stamp(step: Step): Option<int> {
    match step
    case EnsureCase(_, _, _, _, now) => Some(now)
    case CastVote(_, _, _, now, _) => Some(now)
    case Publish(_, _, _, now) => Some(now)
    case Reset(_, now) => Some(now)
    case Touch(_, _) => None
    case Claim(_, _, _, _) => None
    case Administer(_, _) => None
  }

  function Later(clock: int, stamp: Option<int>): int {
    if stamp.Some? && stamp.value > clock then stamp.value else clock
  }

  ghost function Next(s: State, config: Config, periods: Periods, move: Move): State {
    match move
    case Act(step) => s.(world := AuthorityRuns.Next(s.world, config, periods, step), clock := Later(s.clock, Stamp(step)))
    case ReadStats(p, c, now) => State(s.world, Later(s.clock, Some(now)), s.ticks[p := StatsRead(c, now, StatsFor(s.world.db, c))])
    case ReadLatest(p) =>
      if p in s.ticks && s.ticks[p].StatsRead? then
        var t := s.ticks[p];
        s.(ticks := s.ticks[p := BothRead(t.c, t.now, t.stats, LatestOf(SnapshotsOf(s.world.db, t.c)))])
      else s
    case Insert(p) =>
      if p in s.ticks && s.ticks[p].BothRead?
      then State(s.world.(db := Published(s.world.db, config, s.ticks[p])), s.clock, s.ticks - {p})
      else s
  }

  // ----- inserts that change nothing -----

  lemma {:induction false} UpToNone(rows: seq<SnapshotRow>, last: int)
    requires forall r :: r in rows ==> r.sequence > last
    ensures UpTo(rows, last) == []
  {
    if rows != [] {
      UpToNone(rows[..|rows| - 1], last);
    }
  }

  lemma {:induction false} UpToAll(rows: seq<SnapshotRow>, last: int)
    requires forall r :: r in rows ==> r.sequence <= last
    ensures UpTo(rows, last) == rows
  {
    if rows != [] {
      UpToAll(rows[..|rows| - 1], last);
    }
  }

  lemma SequencesWithin(rows: seq<SnapshotRow>)
    requires rows != [] && Contiguous(rows)
    ensures forall r :: r in rows ==> rows[0].sequence <= r.sequence <= LatestSequence(rows)
    ensures forall n :: rows[0].sequence <= n <= LatestSequence(rows) ==> Taken(rows, n)
  {
    forall n | rows[0].sequence <= n <= LatestSequence(rows) ensures Taken(rows, n) {
      assert rows[n - rows[0].sequence].sequence == n;
    }
  }

  /** A row whose sequence is not beyond the newest either conflicts or is pruned at once. */
  lemma OldSequenceIsDropped(rows: seq<SnapshotRow>, stats: StatsRow, row: SnapshotRow)
    requires PublishedOk(rows, stats) && 1 <= row.sequence <= LatestSequence(rows)
    ensures Inserted(rows, row) == rows
  {
    hide Newer, UpTo, Taken;
    SequencesWithin(rows);
    if row.sequence < rows[0].sequence && !Taken(rows, row.sequence) {
      UpToNone(rows, row.sequence);
      NewerAll(rows, row.sequence);
      var all := [row] + rows;
      assert UpTo(rows, row.sequence) + [row] + Newer(rows, row.sequence) == all;
      NewerDropsFirst(row, rows, LatestSequence(all) - SNAPSHOT_HISTORY_LIMIT);
    }
  }

  /** A row with the very next sequence is published. */
  lemma NextSequenceIsPublished(rows: seq<SnapshotRow>, stats: StatsRow, row: SnapshotRow)
    requires PublishedOk(rows, stats) && row.sequence == LatestSequence(rows) + 1
    ensures PublishedOk(Inserted(rows, row), Shown(row)) && LatestOf(Inserted(rows, row)) == Some(row)
  {
    SequencesWithin(rows);
    AppendsNext(rows, row);
    PublishKeepsSnapshot(rows, stats, Shown(row), row.capturedAt);
  }

  lemma AppendsNext(rows: seq<SnapshotRow>, row: SnapshotRow)
    requires forall r :: r in rows ==> r.sequence < row.sequence
    ensures var all := rows + [row]; Inserted(rows, row) == Newer(all, LatestSequence(all) - SNAPSHOT_HISTORY_LIMIT)
  {
    hide Newer, UpTo;
    UpToAll(rows, row.sequence);
    NewerNone(rows, row.sequence);
    assert UpTo(rows, row.sequence) + [row] + Newer(rows, row.sequence) == rows + [row];
  }

  lemma {:induction false} NewerAreRows(rows: seq<SnapshotRow>, than: int)
    ensures forall r :: r in Newer(rows, than) ==> r in rows
    decreases |rows|
  {
    if rows != [] {
      NewerAreRows(rows[..|rows| - 1], than);
    }
  }

  /** A row that skips a sequence leaves a gap, or stands alone without being the first. */
  lemma GapIsNotPublished(rows: seq<SnapshotRow>, stats: StatsRow, row: SnapshotRow, shown: StatsRow)
    requires PublishedOk(rows, stats) && row.sequence > LatestSequence(rows) + 1
    ensures !PublishedOk(Inserted(rows, row), shown)
  {
    hide Newer, Inserted;
    SequencesWithin(rows);
    AppendsNext(rows, row);
    var than := row.sequence - SNAPSHOT_HISTORY_LIMIT;
    var front := Newer(rows, than);
    NewerAreRows(rows, than);
    KeepsNewest(rows, row, than);
    assert Inserted(rows, row) == front + [row];
    if front != [] {
      assert front[|front| - 1] in rows;
      assert (front + [row])[|front| - 1].sequence + 1 < (front + [row])[|front|].sequence;
    }
  }

  lemma KeepsNewest(rows: seq<SnapshotRow>, row: SnapshotRow, than: int)
    requires row.sequence > than
    ensures Newer(rows + [row], than) == Newer(rows, than) + [row]
  {
    assert (rows + [row])[..|rows|] == rows;
  }

  // ----- what a step does to the aggregate and the snapshots of a case -----

  predicate Untouched(db: Db, after: Db, c: CaseId) {
    c in db.cases && StatsFor(after, c) == StatsFor(db, c) && SnapshotsOf(after, c) == SnapshotsOf(db, c)
  }

  predicate CapturedAt(db: Db, c: CaseId, stamp: Option<int>) {
    stamp.Some? && SnapshotsOf(db, c) != [] && LatestOf(SnapshotsOf(db, c)).value.capturedAt == stamp.value
  }

  /** Wherever a step moves an aggregate it publishes under its own stamp. */
  predicate MovesPublish(db: Db, after: Db, stamp: Option<int>) {
    forall c :: c in after.cases ==> Untouched(db, after, c) || CapturedAt(after, c, stamp)
  }

  lemma SameAggregates(db: Db, after: Db, stamp: Option<int>)
    requires after.cases.Keys <= db.cases.Keys && after.stats == db.stats && after.snapshots == db.snapshots
    ensures MovesPublish(db, after, stamp)
  {
  }

  lemma AcceptPublishes(db: Db, i: InstallationId, intent: Intent, active: CaseRow, spent: nat, now: int)
    requires StatsOk(db.cases, db.stats, db.votes) && SnapshotsOk(db.stats, db.snapshots)
    requires intent.caseId == active.id && active.id in db.cases && CanSpend(db, i, active.day, spent)
    ensures MovesPublish(db, AcceptVote(db, i, intent, active, spent, now), Some(now))
  {
    hide AcceptVote, CanSpend, Recount, PublishedOk, BumpStats, Newer, LatestSequence, Voters;
    AggregatesExist(db.cases, db.stats, db.snapshots, db.votes, active.id);
    AcceptedTables(db, i, intent, active, spent, now);
    var bumped := BumpStats(db.stats[active.id], intent.direction, spent, i !in Voters(db.votes, OfCase(active.id)));
    PublishKeepsSnapshot(db.snapshots[active.id], db.stats[active.id], bumped, now);
    var after := AcceptVote(db, i, intent, active, spent, now);
    assert CapturedAt(after, active.id, Some(now));
  }

  lemma VotePublishes(db: Db, config: Config, i: InstallationId, intent: Intent, active: CaseRow, now: int, maxSpend: Limit, today: Day)
    requires Consistent(db, today)
    ensures MovesPublish(db, Vote(db, config, i, intent, active, now, maxSpend).0, Some(now))
  {
    hide Vote, MovesPublish, AcceptVote, CasesOk, StatsOk, VotesOk, ReceiptsOk, IncenseOk, UsedOk, SnapshotsOk, EnsureRow, CanSpend;
    var after := Vote(db, config, i, intent, active, now, maxSpend).0;
    VoteHasShape(db, config, i, intent, active, now, maxSpend);
    if after == db.(receipts := after.receipts) {
      SameAggregates(db, after, Some(now));
    } else {
      var ready := EnsureRow(db, config, i, db.cases[intent.caseId]);
      EnsureRowFrame(db, config, i, db.cases[intent.caseId]);
      if after == ready.(receipts := after.receipts) {
        SameAggregates(db, after, Some(now));
      } else {
        var spent: nat :| Spends(ready, after, i, intent, active, now, spent);
        AcceptPublishes(ready, i, intent, active, spent, now);
        SameBefore(db, ready, after, Some(now));
      }
    }
  }

  lemma SameBefore(db: Db, ready: Db, after: Db, stamp: Option<int>)
    requires ready.cases == db.cases && ready.stats == db.stats && ready.snapshots == db.snapshots && MovesPublish(ready, after, stamp)
    ensures MovesPublish(db, after, stamp)
  {
  }

  lemma OpenPublishes(db: Db, row: CaseRow, now: int)
    ensures MovesPublish(db, OpenCase(db, row, now), Some(now))
  {
  }

  lemma ResetPublishes(db: Db, day: Day, now: int)
    requires StatsOk(db.cases, db.stats, db.votes) && SnapshotsOk(db.stats, db.snapshots)
    ensures var r := ResetToday(db, day, now); r.Some? ==> MovesPublish(db, r.value, Some(now))
  {
    hide Kept, HasActive, Recount, PublishedOk, SurvivingReceipts;
  }

  lemma RotatePublishes(db: Db, config: Config, periods: Periods, id: CaseId, title: string, today: Day, now: int)
    ensures var r := Rotate(db, config, periods, id, title, today, now); r.Some? ==> MovesPublish(db, r.value, Some(now))
  {
    hide Finalize, HasActive, OpenCase, MovesPublish, CloseCasesBefore;
    CloseFrame(db, today);
    var closed := CloseCasesBefore(db, today);
    var sealed := closed.(archive := Finalize(closed, periods, today));
    SameAggregates(db, sealed, Some(now));
    OpenPublishes(sealed, NewCase(id, today, title, config, now), now);
    OpenedAfter(db, sealed, OpenCase(sealed, NewCase(id, today, title, config, now), now), Some(now));
  }

  lemma OpenedAfter(db: Db, before: Db, after: Db, stamp: Option<int>)
    requires before.cases.Keys <= db.cases.Keys && before.stats == db.stats && before.snapshots == db.snapshots
    requires MovesPublish(before, after, stamp)
    ensures MovesPublish(db, after, stamp)
  {
  }

  lemma PublishPublishes(db: Db, config: Config, id: CaseId, title: string, today: Day, now: int)
    ensures var r := PublishCase(db, config, id, title, today, now); r.Some? ==> MovesPublish(db, r.value, Some(now))
  {
    hide HasActive, OpenCase, MovesPublish, CloseCasesBefore, CloseActiveFor, ResetUsedFor;
    CloseFrame(db, today);
    var closed := CloseCasesBefore(db, today);
    CloseFrame(closed, today);
    var once := if HasActive(closed, today) then CloseActiveFor(closed, today) else closed;
    ResetUsedFrame(once, today);
    var cleared := ResetUsedFor(once, today);
    OpenPublishes(cleared, NewCase(id, today, title, config, now), now);
    OpenedAfter(db, cleared, OpenCase(cleared, NewCase(id, today, title, config, now), now), Some(now));
  }

  /** Every step of a run publishes what it changes, in the same transaction. */
  lemma StepPublishes(w: World, config: Config, periods: Periods, step: Step)
    requires Consistent(w.db, w.today) && Possible(w, config, step)
    ensures MovesPublish(w.db, AuthorityRuns.Next(w, config, periods, step).db, Stamp(step))
  {
    hide CasesOk, StatsOk, VotesOk, ReceiptsOk, IncenseOk, UsedOk, SnapshotsOk, Rotate, Vote, EnsureRow, ApplyTokenClaim,
         PublishCase, ResetToday, HasActive, MovesPublish;
    var after := AuthorityRuns.Next(w, config, periods, step).db;
    SameAggregates(w.db, w.db, Stamp(step));
    match step
    case EnsureCase(p, day, id, title, now) => RotatePublishes(w.db, config, periods, id, title, day, now);
    case CastVote(i, intent, active, now, maxSpend) => VotePublishes(w.db, config, i, intent, active, now, maxSpend, w.today);
    case Touch(i, caseRow) =>
      EnsureRowKeepsConsistent(w.db, config, i, caseRow, w.today);
      SameAggregates(w.db, after, Stamp(step));
    case Claim(i, caseRow, claimDay, requested) =>
      ClaimKeepsConsistent(w.db, config, i, caseRow, claimDay, requested, w.today);
      SameAggregates(w.db, after, Stamp(step));
    case Publish(day, id, title, now) => PublishPublishes(w.db, config, id, title, day, now);
    case Reset(day, now) => ResetPublishes(w.db, day, now);
    case Administer(_, _) => SameAggregates(w.db, after, Stamp(step));
  }

  // ----- timely runs -----

  /** A stamp lies less than a refresh interval before the largest one so far: no request waits that long for its commit.
      Stamps that never go back are timely under any positive interval. */
  predicate Timely(s: State, config: Config, move: Move) {
    move.Act? && Stamp(move.step).Some? ==> Stamp(move.step).value > s.clock - config.snapshotRefreshMs
  }

  /** The aggregate that was read is current, or something newer than the refresh interval has been published since. */
  predicate Current(db: Db, config: Config, c: CaseId, stats: StatsRow, now: int) {
    c in db.cases ==>
      || stats == StatsFor(db, c)
      || (SnapshotsOf(db, c) != [] && now - LatestOf(SnapshotsOf(db, c)).value.capturedAt < config.snapshotRefreshMs)
  }

  predicate TickOk(s: State, config: Config, tick: Tick) {
    match tick
    case StatsRead(c, now, stats) => now <= s.clock && Current(s.world.db, config, c, stats, now)
    case BothRead(c, now, stats, latest) => latest.Some? ==> !PublishDue(latest, config, stats, now)
  }

  predicate TicksOk(s: State, config: Config) {
    forall p :: p in s.ticks ==> TickOk(s, config, s.ticks[p])
  }

  lemma ActKeepsTick(s: State, config: Config, periods: Periods, step: Step, tick: Tick)
    requires Consistent(s.world.db, s.world.today) && Possible(s.world, config, step) && Timely(s, config, Act(step))
    requires TickOk(s, config, tick)
    ensures TickOk(Next(s, config, periods, Act(step)), config, tick)
  {
    hide AuthorityRuns.Next, Consistent, Possible;
    StepPublishes(s.world, config, periods, step);
    var after := AuthorityRuns.Next(s.world, config, periods, step).db;
    if tick.StatsRead? && tick.c in after.cases {
      assert Untouched(s.world.db, after, tick.c) || CapturedAt(after, tick.c, Stamp(step));
    }
  }

  lemma LatestShowsStats(db: Db, today: Day, c: CaseId)
    requires Consistent(db, today) && c in db.cases
    ensures SnapshotsOf(db, c) != [] && Shown(LatestOf(SnapshotsOf(db, c)).value) == StatsFor(db, c)
    ensures PublishedOk(SnapshotsOf(db, c), StatsFor(db, c)) && c in db.stats && c in db.snapshots
  {
    hide CasesOk, VotesOk, ReceiptsOk, IncenseOk, UsedOk, Recount;
    assert PublishedOk(db.snapshots[c], db.stats[c]);
  }

  lemma GoneHasNoSnapshots(db: Db, today: Day, c: CaseId)
    requires Consistent(db, today) && c !in db.cases
    ensures SnapshotsOf(db, c) == []
  {
    hide CasesOk, VotesOk, ReceiptsOk, IncenseOk, UsedOk, Recount, PublishedOk;
  }

  /** A tick that is fine changes nothing: it is not due, or its case is gone, or its first sequence is long taken. */
  lemma FineTickIsIdle(s: State, config: Config, tick: Tick)
    requires Consistent(s.world.db, s.world.today) && tick.BothRead? && TickOk(s, config, tick)
    ensures Published(s.world.db, config, tick) == s.world.db
  {
    hide Consistent, PublishedOk, Inserted;
    var db := s.world.db;
    if tick.latest.None? && tick.c in db.cases {
      LatestShowsStats(db, s.world.today, tick.c);
      FirstOfMany(SnapshotsOf(db, tick.c), StatsFor(db, tick.c));
      OldSequenceIsDropped(SnapshotsOf(db, tick.c), StatsFor(db, tick.c), NextRow(tick.latest, tick.stats, tick.now));
      assert db.snapshots[tick.c := db.snapshots[tick.c]] == db.snapshots;
    }
  }

  lemma FirstOfMany(rows: seq<SnapshotRow>, stats: StatsRow)
    requires PublishedOk(rows, stats)
    ensures LatestSequence(rows) >= 1
  {
  }

  lemma ReadKeepsTick(s: State, config: Config, tick: Tick)
    requires Consistent(s.world.db, s.world.today) && tick.StatsRead? && TickOk(s, config, tick)
    ensures TickOk(s, config, BothRead(tick.c, tick.now, tick.stats, LatestOf(SnapshotsOf(s.world.db, tick.c))))
  {
    hide Consistent;
    if tick.c in s.world.db.cases {
      LatestShowsStats(s.world.db, s.world.today, tick.c);
    } else {
      GoneHasNoSnapshots(s.world.db, s.world.today, tick.c);
    }
  }

  /** One timely move keeps every tick fine, and only the acts among them change the tables. */
  lemma MoveKeepsTicks(s: State, config: Config, periods: Periods, move: Move)
    requires Consistent(s.world.db, s.world.today) && TicksOk(s, config)
    requires Timely(s, config, move) && (move.Act? ==> Possible(s.world, config, move.step))
    ensures TicksOk(Next(s, config, periods, move), config)
    ensures !move.Act? ==> Next(s, config, periods, move).world == s.world
  {
    hide AuthorityRuns.Next, Consistent, Possible, TickOk, Published;
    var after := Next(s, config, periods, move);
    match move
    case Act(step) =>
      forall p | p in after.ticks ensures TickOk(after, config, after.ticks[p]) {
        ActKeepsTick(s, config, periods, step, s.ticks[p]);
      }
    case ReadStats(p, c, now) =>
      forall q | q in after.ticks ensures TickOk(after, config, after.ticks[q]) {
        if q == p {
          StatsReadIsFine(after, config, c, now);
        } else {
          LaterClock(s, after, config, s.ticks[q]);
        }
      }
    case ReadLatest(p) =>
      if p in s.ticks && s.ticks[p].StatsRead? {
        ReadKeepsTick(s, config, s.ticks[p]);
        forall q | q in after.ticks ensures TickOk(after, config, after.ticks[q]) {
          LaterClock(s, after, config, after.ticks[q]);
        }
      }
    case Insert(p) =>
      if p in s.ticks && s.ticks[p].BothRead? {
        FineTickIsIdle(s, config, s.ticks[p]);
        forall q | q in after.ticks ensures TickOk(after, config, after.ticks[q]) {
          LaterClock(s, after, config, s.ticks[q]);
        }
      }
  }

  lemma StatsReadIsFine(s: State, config: Config, c: CaseId, now: int)
    requires now <= s.clock
    ensures TickOk(s, config, StatsRead(c, now, StatsFor(s.world.db, c)))
  {
  }

  lemma LaterClock(s: State, after: State, config: Config, tick: Tick)
    requires TickOk(s, config, tick) && after.world == s.world && s.clock <= after.clock
    ensures TickOk(after, config, tick)
  {
  }

  ghost function Run(s: State, config: Config, periods: Periods, moves: seq<Move>): State
    decreases |moves|
  {
    if moves == [] then s else Run(Next(s, config, periods, moves[0]), config, periods, moves[1..])
  }

  ghost predicate TimelyRun(s: State, config: Config, periods: Periods, moves: seq<Move>)
    decreases |moves|
  {
    moves == [] ||
    (Timely(s, config, moves[0]) && TimelyRun(Next(s, config, periods, moves[0]), config, periods, moves[1..]))
  }

  /** The steps of a run with its ticks left out. */
  function Acts(moves: seq<Move>): seq<Step>
    decreases |moves|
  {
    if moves == [] then []
    else (if moves[0].Act? then [moves[0].step] else []) + Acts(moves[1..])
  }

  /** In a timely run no tick ever changes anything: the tables end as they do without the ticks. */
  lemma {:induction false} TicksChangeNothing(s: State, config: Config, periods: Periods, moves: seq<Move>)
    requires Invariant(s.world, periods) && TicksOk(s, config) && config.tokenPerIncense > 0
    requires Partition(periods.week) && Partition(periods.month)
    requires PossibleRun(s.world, config, periods, Acts(moves)) && TimelyRun(s, config, periods, moves)
    ensures Run(s, config, periods, moves).world == AuthorityRuns.Run(s.world, config, periods, Acts(moves))
    ensures TicksOk(Run(s, config, periods, moves), config)
    decreases |moves|
  {
    hide Consistent, ArchiveTrue, CheckedTrue, CasesUntil, TodayOpen, Partition, AuthorityRuns.Next, Possible, Extends, TicksOk, Timely;
    if moves != [] {
      var move, rest := moves[0], Acts(moves[1..]);
      if move.Act? {
        assert Acts(moves)[0] == move.step && Acts(moves)[1..] == rest;
        StepKeepsInvariant(s.world, config, periods, move.step);
      } else {
        assert Acts(moves) == rest;
      }
      MoveKeepsTicks(s, config, periods, move);
      TicksChangeNothing(Next(s, config, periods, move), config, periods, moves[1..]);
    }
  }

  /** In one process nothing comes between the reads and the insert, and then stamps do not matter either. */
  lemma UndisturbedTickIsIdle(s: State, config: Config, periods: Periods, p: Process, c: CaseId, now: int)
    requires Consistent(s.world.db, s.world.today)
    ensures Next(Next(Next(s, config, periods, ReadStats(p, c, now)), config, periods, ReadLatest(p)), config, periods, Insert(p)).world == s.world
  {
    hide Consistent, Published;
    var read := Next(s, config, periods, ReadStats(p, c, now));
    StatsReadIsFine(read, config, c, now);
    ReadKeepsTick(read, config, read.ticks[p]);
    var both := Next(read, config, periods, ReadLatest(p));
    FineTickIsIdle(both, config, both.ticks[p]);
  }

  // ----- when a tick does harm -----

  /** A tick whose reads straddle one accepted vote of its case publishes the aggregate without that vote exactly when
      the vote was stamped a full refresh interval before the tick. */
  lemma StraddlingTick(s: State, config: Config, periods: Periods, p: Process, now: int,
                       i: InstallationId, intent: Intent, active: CaseRow, voteNow: int, maxSpend: Limit)
    requires Consistent(s.world.db, s.world.today) && (i, intent.requestId) !in s.world.db.receipts
    requires Vote(s.world.db, config, i, intent, active, voteNow, maxSpend).1.Accepted?
    ensures var read := Next(s, config, periods, ReadStats(p, active.id, now));
            var voted := Next(read, config, periods, Act(CastVote(i, intent, active, voteNow, maxSpend)));
            var after := Next(Next(voted, config, periods, ReadLatest(p)), config, periods, Insert(p));
            Consistent(after.world.db, after.world.today) <==> now - voteNow < config.snapshotRefreshMs
  {
    hide Consistent, Vote, Inserted, StatsFor, Later;
    var db, c := s.world.db, active.id;
    VoteKeepsConsistent(db, config, i, intent, active, voteNow, maxSpend, s.world.today);
    AcceptedMoves(db, config, i, intent, active, voteNow, maxSpend, s.world.today);
    var after := Vote(db, config, i, intent, active, voteNow, maxSpend).0;
    LatestShowsStats(after, s.world.today, c);
    var tick := BothRead(c, now, StatsFor(db, c), LatestOf(SnapshotsOf(after, c)));
    InsertExactly(after, config, tick, s.world.today);
    assert PublishDue(tick.latest, config, tick.stats, now) <==> now - voteNow >= config.snapshotRefreshMs;
    var read := Next(s, config, periods, ReadStats(p, c, now));
    var voted := Next(read, config, periods, Act(CastVote(i, intent, active, voteNow, maxSpend)));
    assert voted.world.db == after && voted.ticks[p] == StatsRead(c, now, StatsFor(db, c));
    assert Next(voted, config, periods, ReadLatest(p)).ticks[p] == tick;
  }

  lemma AcceptedMoves(db: Db, config: Config, i: InstallationId, intent: Intent, active: CaseRow, now: int, maxSpend: Limit, today: Day)
    requires Consistent(db, today) && (i, intent.requestId) !in db.receipts
    requires Vote(db, config, i, intent, active, now, maxSpend).1.Accepted?
    ensures var after := Vote(db, config, i, intent, active, now, maxSpend).0;
            && active.id in after.cases && StatsFor(after, active.id) != StatsFor(db, active.id)
            && CapturedAt(after, active.id, Some(now))
  {
    hide Consistent, AcceptVote, EnsureRow, ClampedSpend, CanSpend;
    var after := Vote(db, config, i, intent, active, now, maxSpend).0;
    var ready := EnsureRow(db, config, i, db.cases[intent.caseId]);
    var spent := ClampedSpend(ready, i, intent, active.day, maxSpend);
    AcceptedMoves'(db, config, i, intent, active, now, spent, today);
  }

  lemma AcceptedMoves'(db: Db, config: Config, i: InstallationId, intent: Intent, active: CaseRow, now: int, spent: nat, today: Day)
    requires Consistent(db, today) && active.id in db.cases && intent.caseId == active.id && spent >= 1
    requires var ready := EnsureRow(db, config, i, db.cases[active.id]); CanSpend(ready, i, active.day, spent)
    ensures var ready := EnsureRow(db, config, i, db.cases[active.id]);
            var after := AcceptVote(ready, i, intent, active, spent, now);
            && active.id in after.cases && StatsFor(after, active.id) != StatsFor(db, active.id)
            && CapturedAt(after, active.id, Some(now))
  {
    hide CasesOk, VotesOk, ReceiptsOk, IncenseOk, UsedOk, Recount, PublishedOk, EnsureRow, AcceptVote, CanSpend, Newer, LatestSequence, Voters;
    EnsureRowFrame(db, config, i, db.cases[active.id]);
    var ready := EnsureRow(db, config, i, db.cases[active.id]);
    AcceptedTables(ready, i, intent, active, spent, now);
    var bumped := BumpStats(ready.stats[active.id], intent.direction, spent, i !in Voters(ready.votes, OfCase(active.id)));
    PublishKeepsSnapshot(ready.snapshots[active.id], ready.stats[active.id], bumped, now);
  }

  /** What an insert leaves newest, beside the snapshots of every other case: what the tick read, under the sequence after the one
      it read and its own time, when that comes next; otherwise, when it is not due or comes late, what was newest before. */
  lemma InsertLeaves(db: Db, config: Config, tick: Tick, today: Day)
    requires Consistent(db, today) && tick.BothRead? && tick.c in db.cases
    ensures var before, after := SnapshotsOf(db, tick.c), SnapshotsOf(Published(db, config, tick), tick.c);
            var read := if tick.latest.Some? then tick.latest.value.sequence else 0;
            && (PublishDue(tick.latest, config, tick.stats, tick.now) && read == LatestSequence(before) ==>
                  LatestOf(after) == Some(SnapshotRow(read + 1, tick.stats.up, tick.stats.down, tick.stats.uniqueVoters, tick.now)))
            && (!PublishDue(tick.latest, config, tick.stats, tick.now) || read < LatestSequence(before) ==> after == before)
    ensures forall c :: c != tick.c ==> SnapshotsOf(Published(db, config, tick), c) == SnapshotsOf(db, c)
  {
    hide Consistent, Inserted, PublishedOk, LatestSequence, LatestOf;
    var rows, row := SnapshotsOf(db, tick.c), NextRow(tick.latest, tick.stats, tick.now);
    LatestShowsStats(db, today, tick.c);
    if row.sequence <= LatestSequence(rows) {
      OldSequenceIsDropped(rows, StatsFor(db, tick.c), row);
    } else if row.sequence == LatestSequence(rows) + 1 {
      NextSequenceIsPublished(rows, StatsFor(db, tick.c), row);
    }
  }

  /** Whatever two reads lie behind it, an insert keeps the tables in agreement exactly when it is not due, or its sequence
      has been taken by now, or it comes next and states the current aggregate. */
  lemma InsertExactly(db: Db, config: Config, tick: Tick, today: Day)
    requires Consistent(db, today) && tick.BothRead? && tick.c in db.cases
    ensures var sequence, newest := NextRow(tick.latest, tick.stats, tick.now).sequence, LatestSequence(SnapshotsOf(db, tick.c));
            Consistent(Published(db, config, tick), today) <==>
              || !PublishDue(tick.latest, config, tick.stats, tick.now)
              || sequence <= newest
              || (sequence == newest + 1 && tick.stats == StatsFor(db, tick.c))
  {
    hide CasesOk, StatsOk, VotesOk, ReceiptsOk, IncenseOk, UsedOk, SnapshotsOk, Inserted, PublishedOk, LatestSequence;
    var rows, row := SnapshotsOf(db, tick.c), NextRow(tick.latest, tick.stats, tick.now);
    LatestShowsStats(db, today, tick.c);
    SnapshotReplaced(db.stats, db.snapshots, tick.c, Inserted(rows, row));
    if row.sequence <= LatestSequence(rows) {
      OldSequenceIsDropped(rows, StatsFor(db, tick.c), row);
    } else if row.sequence == LatestSequence(rows) + 1 {
      NextSequenceIsPublished(rows, StatsFor(db, tick.c), row);
      PublishedShows(Inserted(rows, row), tick.stats, StatsFor(db, tick.c));
    } else {
      GapIsNotPublished(rows, StatsFor(db, tick.c), row, StatsFor(db, tick.c));
    }
  }

  lemma SnapshotReplaced(stats: map<CaseId, StatsRow>, snapshots: map<CaseId, seq<SnapshotRow>>, c: CaseId, rows: seq<SnapshotRow>)
    requires SnapshotsOk(stats, snapshots) && c in stats
    ensures SnapshotsOk(stats, snapshots[c := rows]) <==> PublishedOk(rows, stats[c])
  {
    hide PublishedOk;
    var after := snapshots[c := rows];
    assert after.Keys == snapshots.Keys;
    assert after[c] == rows;
  }

  lemma PublishedShows(rows: seq<SnapshotRow>, a: StatsRow, b: StatsRow)
    requires PublishedOk(rows, a)
    ensures PublishedOk(rows, b) <==> a == b
  {
  }

  const SLOW := Config(10, 0, 0, 1000)
  const ROW := CaseRow("c", 0, "", true, 10, 0)
  const ASKED := Intent("c", Up, "r", 1)

  /** One case with one claim of 100 tokens on it. */
  lemma OneClaim(periods: Periods)
    ensures var begun := AuthorityRuns.Next(Start(0), SLOW, periods, Publish(0, "c", "", 0));
            var claimed := AuthorityRuns.Next(begun, SLOW, periods, Claim("i", ROW, 0, 100));
            && claimed.today == 0 && claimed.db.cases == map["c" := ROW] && claimed.db.receipts == map[]
            && claimed.db.incense == map[("i", 0) := IncenseRow(100, 0, 10, 0)]
  {
    var begun := AuthorityRuns.Next(Start(0), SLOW, periods, Publish(0, "c", "", 0));
    assert !HasActive(CloseCasesBefore(EMPTY_DB, 0), 0);
    assert ResetUsedFor(CloseCasesBefore(EMPTY_DB, 0), 0) == EMPTY_DB;
    assert begun.db.cases == map["c" := ROW] && begun.db.incense == map[];
  }

  lemma StartsConsistent(periods: Periods)
    ensures var begun := AuthorityRuns.Next(Start(0), SLOW, periods, Publish(0, "c", "", 0));
            Consistent(AuthorityRuns.Next(begun, SLOW, periods, Claim("i", ROW, 0, 100)).db, 0)
  {
    hide AuthorityRuns.Next, Consistent;
    StartHolds(periods, 0);
    OneClaim(periods);
    var begun := AuthorityRuns.Next(Start(0), SLOW, periods, Publish(0, "c", "", 0));
    StepKeepsConsistent(Start(0), SLOW, periods, Publish(0, "c", "", 0));
    StepKeepsConsistent(begun, SLOW, periods, Claim("i", ROW, 0, 100));
  }

  lemma LateVoteIsAccepted(periods: Periods)
    ensures var begun := AuthorityRuns.Next(Start(0), SLOW, periods, Publish(0, "c", "", 0));
            var db := AuthorityRuns.Next(begun, SLOW, periods, Claim("i", ROW, 0, 100)).db;
            ("i", "r") !in db.receipts && Vote(db, SLOW, "i", ASKED, ROW, 4000, Unlimited).1.Accepted?
  {
    hide AuthorityRuns.Next, Consistent, Vote;
    OneClaim(periods);
    StartsConsistent(periods);
    var begun := AuthorityRuns.Next(Start(0), SLOW, periods, Publish(0, "c", "", 0));
    var db := AuthorityRuns.Next(begun, SLOW, periods, Claim("i", ROW, 0, 100)).db;
    assert EnsureRow(db, SLOW, "i", ROW) == db;
    FreshVoteOutcome(db, SLOW, "i", ASKED, ROW, 4000, Unlimited, 0);
  }

  lemma RunSix(s: State, config: Config, periods: Periods, a: Move, b: Move, c: Move, d: Move, e: Move, f: Move)
    ensures Run(s, config, periods, [a, b, c, d, e, f])
         == Next(Next(Next(Next(Next(Next(s, config, periods, a), config, periods, b), config, periods, c), config, periods, d),
                 config, periods, e), config, periods, f)
  {
    hide Next;
    assert [a, b, c, d, e, f][1..] == [b, c, d, e, f] && [b, c, d, e, f][1..] == [c, d, e, f] && [c, d, e, f][1..] == [d, e, f];
    assert [d, e, f][1..] == [e, f] && [e, f][1..] == [f] && [f][1..] == [];
    var s1 := Next(s, config, periods, a);
    var s2 := Next(s1, config, periods, b);
    var s3 := Next(s2, config, periods, c);
    var s4 := Next(s3, config, periods, d);
    var s5 := Next(s4, config, periods, e);
    assert Run(s5, config, periods, [f]) == Next(s5, config, periods, f);
    assert Run(s4, config, periods, [e, f]) == Run(s5, config, periods, [f]);
    assert Run(s3, config, periods, [d, e, f]) == Run(s4, config, periods, [e, f]);
    assert Run(s2, config, periods, [c, d, e, f]) == Run(s3, config, periods, [d, e, f]);
    assert Run(s1, config, periods, [b, c, d, e, f]) == Run(s2, config, periods, [c, d, e, f]);
  }

  /** The harm is reachable: a vote stamped one refresh interval before the tick commits between its two reads, and the
      newest snapshot no longer shows the vote. */
  lemma LateVoteIsHidden(periods: Periods)
    ensures var publish, claim, vote := Publish(0, "c", "", 0), Claim("i", ROW, 0, 100), CastVote("i", ASKED, ROW, 4000, Unlimited);
            && PossibleRun(Start(0), SLOW, periods, [publish, claim, vote])
            && !Consistent(Run(State(Start(0), 0, map[]), SLOW, periods,
                 [Act(publish), Act(claim), ReadStats(1, "c", 5000), Act(vote), ReadLatest(1), Insert(1)]).world.db, 0)
  {
    hide AuthorityRuns.Next, Consistent, Vote;
    var publish, claim, vote := Publish(0, "c", "", 0), Claim("i", ROW, 0, 100), CastVote("i", ASKED, ROW, 4000, Unlimited);
    var s0 := State(Start(0), 0, map[]);
    OneClaim(periods);
    StartsConsistent(periods);
    LateVoteIsAccepted(periods);
    var s1 := Next(s0, SLOW, periods, Act(publish));
    var s2 := Next(s1, SLOW, periods, Act(claim));
    AllPossible(periods, publish, claim, vote);
    StraddlingTick(s2, SLOW, periods, 1, 5000, "i", ASKED, ROW, 4000, Unlimited);
    RunSix(s0, SLOW, periods, Act(publish), Act(claim), ReadStats(1, "c", 5000), Act(vote), ReadLatest(1), Insert(1));
    StaysOnDay(s2, periods);
  }

  lemma AllPossible(periods: Periods, publish: Step, claim: Step, vote: Step)
    requires publish.Publish? && publish.day == 0 && claim.Claim? && claim.caseRow.tokenPerIncense > 0 && vote.CastVote?
    ensures PossibleRun(Start(0), SLOW, periods, [publish, claim, vote])
  {
    hide AuthorityRuns.Next;
    var w1 := AuthorityRuns.Next(Start(0), SLOW, periods, publish);
    var w2 := AuthorityRuns.Next(w1, SLOW, periods, claim);
    assert [publish, claim, vote][1..] == [claim, vote] && [claim, vote][1..] == [vote] && [vote][1..] == [];
    assert PossibleRun(w2, SLOW, periods, [vote]);
    assert PossibleRun(w1, SLOW, periods, [claim, vote]);
  }

  lemma StaysOnDay(s: State, periods: Periods)
    ensures var read := Next(s, SLOW, periods, ReadStats(1, "c", 5000));
            var voted := Next(read, SLOW, periods, Act(CastVote("i", ASKED, ROW, 4000, Unlimited)));
            Next(Next(voted, SLOW, periods, ReadLatest(1)), SLOW, periods, Insert(1)).world.today == s.world.today
  {
    hide Vote, Published;
  }
}
