/** The timed-dump protocol run against the authority's own tables: every delivery of an online dump executes the vote
    transaction, between arbitrary steps of the host and of every other client and process. */
module TimedDumpRuns {
  import opened Common
  import opened Ledger
  import opened VoteBudget
  import opened Database
  import opened Authority
  import opened Consistency
  import opened TimedDumpAuthority
  import Sealing = Archive
  import Host = TimedDump
  import Safety = TimedDumpSafety
  import Runs = AuthorityRuns
  import Idempotency
  import AuthoritySteps

  datatype System = System(host: Host.World, authority: Runs.World)

  /** `Deliver` carries what the answering process knows: its case row, its time and the limiter's offer. */
  datatype Move =
    | HostMoves(step: Host.Step)
    | AuthorityMoves(act: Runs.Step)
    | Deliver(id: RequestId, active: CaseRow, now: int, maxSpend: Limit)

  function IntentOf(job: Host.Job): Intent {
    Intent(job.caseId, job.direction, job.requestId, job.count)
  }

  function VoteStep(s: System, i: InstallationId, move: Move): Runs.Step
    requires move.Deliver? && move.id in s.host.prepared
  {
    Runs.CastVote(i, IntentOf(s.host.prepared[move.id].job), move.active, move.now, move.maxSpend)
  }

  function Verdict(s: System, config: Config, i: InstallationId, move: Move): Host.Verdict
    requires move.Deliver? && move.id in s.host.prepared
  {
    Heard(Vote(s.authority.db, config, i, IntentOf(s.host.prepared[move.id].job), move.active, move.now, move.maxSpend).1)
  }

  ghost function Next(s: System, i: InstallationId, config: Config, periods: Sealing.Periods, move: Move): System {
    match move
    case HostMoves(step) => s.(host := Host.Next(s.host, step))
    case AuthorityMoves(step) => s.(authority := Runs.Next(s.authority, config, periods, step))
    case Deliver(id, _, _, _) =>
      if id !in s.host.prepared then s
      else System(Host.Next(s.host, Host.Deliver(id, Verdict(s, config, i, move))),
                  Runs.Next(s.authority, config, periods, VoteStep(s, i, move)))
  }

  /** The host makes fresh ids and hears of an online dump from the authority alone; nobody else votes as this installation
      under one of its prepared ids, and no date is wiped. */
  predicate Possible(s: System, i: InstallationId, config: Config, move: Move) {
    match move
    case HostMoves(step) =>
      && Host.Possible(s.host, step)
      && (step.Deliver? ==> step.requestId in s.host.prepared && s.host.prepared[step.requestId].mode == Host.LocalMode)
      && (step.Prepare? ==> (i, step.requestId) !in s.authority.db.receipts)
    case AuthorityMoves(step) =>
      && Runs.Possible(s.authority, config, step) && !step.Reset?
      && (step.CastVote? && step.installation == i ==> step.intent.requestId !in s.host.prepared)
    case Deliver(id, _, _, _) => id in s.host.sent && id in s.host.prepared && s.host.prepared[id].mode == Host.Online
  }

  // ----- the link between the two -----

  /** An online id is answered exactly when the tables have its receipt, as they hold it and for what was asked; a local one
      is unknown to them. */
  predicate IdLinked(db: Db, i: InstallationId, p: Host.Prepared, id: RequestId, verdicts: map<RequestId, Host.Verdict>) {
    if p.mode == Host.Online then
      && (id in verdicts <==> (i, id) in db.receipts)
      && (id in verdicts ==> VerdictOf(db, i, id) == Some(verdicts[id]) && SameIntent(db.receipts[(i, id)], IntentOf(p.job)))
    else (i, id) !in db.receipts
  }

  predicate Linked(db: Db, i: InstallationId, prepared: map<RequestId, Host.Prepared>, verdicts: map<RequestId, Host.Verdict>) {
    forall id :: id in prepared ==> IdLinked(db, i, prepared[id], id, verdicts)
  }

  ghost predicate Invariant(s: System, i: InstallationId, periods: Sealing.Periods) {
    && Safety.Invariant(s.host) && Runs.Invariant(s.authority, periods)
    && Linked(s.authority.db, i, s.host.prepared, s.host.verdicts)
  }

  lemma StartHolds(today: Day, clock: int, authority: Runs.World, i: InstallationId, periods: Sealing.Periods)
    requires clock >= 0 && Runs.Invariant(authority, periods)
    ensures Invariant(System(Host.Start(today, clock), authority), i, periods)
  {
    hide Runs.Invariant;
    Safety.StartHolds(today, clock);
  }

  // ----- host moves -----

  /** A host step answers nothing but what it delivers, and creates at most the intent it prepares. */
  lemma HostFrame(w: Host.World, step: Host.Step)
    ensures var after := Host.Next(w, step);
            && (!step.Deliver? ==> after.verdicts == w.verdicts)
            && (step.Deliver? ==> after.verdicts == w.verdicts || after.verdicts == w.verdicts[step.requestId := step.verdict])
            && (after.prepared == w.prepared
                || (step.Prepare? && step.requestId in after.prepared
                    && after.prepared == w.prepared[step.requestId := after.prepared[step.requestId]]))
  {
    hide Host.Completed, Host.NewJob, Host.MayPrepare, Host.PeriodicReady;
  }

  lemma HostKeepsLinked(s: System, i: InstallationId, config: Config, step: Host.Step)
    requires Safety.Invariant(s.host) && Linked(s.authority.db, i, s.host.prepared, s.host.verdicts)
    requires Possible(s, i, config, HostMoves(step))
    ensures var after := Host.Next(s.host, step); Linked(s.authority.db, i, after.prepared, after.verdicts)
  {
    hide Host.Next, VerdictOf, SameIntent;
    var after := Host.Next(s.host, step);
    HostFrame(s.host, step);
    AnsweredArePrepared(s.host);
    forall id | id in after.prepared ensures IdLinked(s.authority.db, i, after.prepared[id], id, after.verdicts) {
      if id in s.host.prepared && !(step.Prepare? && id == step.requestId) {
        assert IdLinked(s.authority.db, i, s.host.prepared[id], id, s.host.verdicts);
      }
    }
  }

  lemma AnsweredArePrepared(w: Host.World)
    requires Safety.Invariant(w)
    ensures w.verdicts.Keys <= w.prepared.Keys
  {
    hide Safety.Fit, Safety.OnDisk, Safety.WaitOk, Safety.IntentsOk, Safety.SpacingOk, Safety.OneClosing;
    assert Safety.EnvOk(Safety.EnvOf(w));
  }

  // ----- authority moves -----

  /** A step leaves no receipt but its own. */
  lemma StepReceipts(w: Runs.World, config: Config, periods: Sealing.Periods, step: Runs.Step, k: (InstallationId, RequestId))
    requires Consistent(w.db, w.today) && Runs.Possible(w, config, step) && !step.Reset?
    requires k !in w.db.receipts && !(step.CastVote? && k == (step.installation, step.intent.requestId))
    ensures k !in Runs.Next(w, config, periods, step).db.receipts
  {
    hide CasesOk, StatsOk, VotesOk, ReceiptsOk, IncenseOk, UsedOk, SnapshotsOk, Vote, Rotate, EnsureRow, ApplyTokenClaim,
         PublishCase, Runs.Skips;
    match step
    case EnsureCase(p, day, id, title, now) => RotateReceipts(w.db, config, periods, id, title, day, now);
    case CastVote(i, intent, active, now, maxSpend) => VoteReceipts(w.db, config, i, intent, active, now, maxSpend);
    case Touch(i, caseRow) => EnsureRowFrame(w.db, config, i, caseRow);
    case Claim(i, caseRow, claimDay, requested) => AuthoritySteps.ClaimKeepsConsistent(w.db, config, i, caseRow, claimDay, requested, w.today);
    case Publish(day, id, title, now) => Runs.PublishFrame(w.db, config, id, title, day, now);
    case Administer(_, _) =>
  }

  lemma RotateReceipts(db: Db, config: Config, periods: Sealing.Periods, id: CaseId, title: string, today: Day, now: int)
    ensures var r := Rotate(db, config, periods, id, title, today, now); r.Some? ==> r.value.receipts == db.receipts
  {
    hide Sealing.Finalize, HasActive;
  }

  /** Nothing recorded, or one receipt under a request's own key. */
  predicate OwnReceipt(db: Db, after: Db, k: (InstallationId, RequestId)) {
    after.receipts == db.receipts || (k in after.receipts && after.receipts == db.receipts[k := after.receipts[k]])
  }

  lemma RejectionIsOwn(db: Db, i: InstallationId, intent: Intent, active: CaseRow, reason: Reason, message: string)
    ensures OwnReceipt(db, RecordRejected(db, i, intent, active, reason, message).0, (i, intent.requestId))
  {
  }

  lemma VoteReceipts(db: Db, config: Config, i: InstallationId, intent: Intent, active: CaseRow, now: int, maxSpend: Limit)
    ensures OwnReceipt(db, Vote(db, config, i, intent, active, now, maxSpend).0, (i, intent.requestId))
  {
    hide EnsureRow, ClampedSpend, CanSpend, AcceptVote, Replay, RecordRejected;
    if (i, intent.requestId) in db.receipts {
    } else if intent.caseId !in db.cases {
      RejectionIsOwn(db, i, intent, active, StaleCase, "case " + intent.caseId + " does not exist");
    } else if !db.cases[intent.caseId].active {
      RejectionIsOwn(db, i, intent, active, CaseNotActive, "case " + intent.caseId + " is closed");
    } else if intent.caseId != active.id || db.cases[intent.caseId].day != active.day {
      RejectionIsOwn(db, i, intent, active, StaleCase, "case " + intent.caseId + " is not the active case");
    } else {
      EnsureRowFrame(db, config, i, db.cases[intent.caseId]);
      var ready := EnsureRow(db, config, i, db.cases[intent.caseId]);
      RejectionIsOwn(ready, i, intent, active, InsufficientIncense, NO_INCENSE);
      Runs.AcceptFrame(ready, i, intent, active, ClampedSpend(ready, i, intent, active.day, maxSpend), now);
    }
  }

  /** What was linked stays linked while the tables grow and the id's receipt appears only when it is delivered. */
  lemma IdStaysLinked(db: Db, after: Db, today: Day, later: Day, i: InstallationId, p: Host.Prepared, id: RequestId,
                      verdicts: map<RequestId, Host.Verdict>)
    requires Consistent(db, today) && Consistent(after, later) && Idempotency.Grows(db, after)
    requires IdLinked(db, i, p, id, verdicts) && ((i, id) !in db.receipts ==> (i, id) !in after.receipts)
    ensures IdLinked(after, i, p, id, verdicts)
  {
    hide Consistent, VerdictOf, SameIntent;
    if (i, id) in db.receipts {
      SettledForEver(db, after, today, later, i, id);
    }
  }

  lemma AuthorityKeepsLinked(s: System, i: InstallationId, config: Config, periods: Sealing.Periods, step: Runs.Step)
    requires Consistent(s.authority.db, s.authority.today) && config.tokenPerIncense > 0
    requires Linked(s.authority.db, i, s.host.prepared, s.host.verdicts)
    requires Runs.Possible(s.authority, config, step) && !step.Reset?
    ensures var after := Runs.Next(s.authority, config, periods, step);
            forall id :: id in s.host.prepared && !(step.CastVote? && step.installation == i && step.intent.requestId == id) ==>
              IdLinked(after.db, i, s.host.prepared[id], id, s.host.verdicts)
  {
    hide Consistent, Runs.Next, Runs.Possible, IdLinked, Idempotency.Grows;
    var after := Runs.Next(s.authority, config, periods, step);
    Runs.StepKeepsConsistent(s.authority, config, periods, step);
    Idempotency.StepGrows(s.authority, config, periods, step);
    forall id | id in s.host.prepared && !(step.CastVote? && step.installation == i && step.intent.requestId == id)
      ensures IdLinked(after.db, i, s.host.prepared[id], id, s.host.verdicts)
    {
      if (i, id) !in s.authority.db.receipts {
        StepReceipts(s.authority, config, periods, step, (i, id));
      }
      IdStaysLinked(s.authority.db, after.db, s.authority.today, after.today, i, s.host.prepared[id], id, s.host.verdicts);
    }
  }

  // ----- deliveries -----

  /** A delivery is a step of both: the vote is a possible step of the authority, and its answer a possible verdict. */
  lemma DeliveryAnswers(s: System, i: InstallationId, config: Config, periods: Sealing.Periods, move: Move)
    requires Consistent(s.authority.db, s.authority.today) && Linked(s.authority.db, i, s.host.prepared, s.host.verdicts)
    requires Safety.Invariant(s.host) && move.Deliver? && Possible(s, i, config, move)
    ensures var id := move.id;
            var verdict := Verdict(s, config, i, move);
            var db := Runs.Next(s.authority, config, periods, VoteStep(s, i, move)).db;
            && Host.Possible(s.host, Host.Deliver(id, verdict))
            && (id in s.host.verdicts ==> s.host.verdicts[id] == verdict)
            && VerdictOf(db, i, id) == Some(verdict) && (i, id) in db.receipts
            && SameIntent(db.receipts[(i, id)], IntentOf(s.host.prepared[id].job))
  {
    hide Consistent, Vote, VerdictOf, SameIntent, Idempotency.Grows;
    var id, p := move.id, s.host.prepared[move.id];
    var intent := IntentOf(p.job);
    PreparedUnderOwnId(s.host, id);
    assert IdLinked(s.authority.db, i, p, id, s.host.verdicts);
    VoteSettlesOnce(s.authority.db, s.authority.today, config, i, intent, move.active, move.now, move.maxSpend);
    SameIntentLater(s.authority.db, s.authority.today, config, i, intent, move.active, move.now, move.maxSpend);
  }

  lemma PreparedUnderOwnId(w: Host.World, id: RequestId)
    requires Safety.Invariant(w) && id in w.prepared
    ensures w.prepared[id].job.requestId == id
  {
    hide Safety.Fit, Safety.OnDisk, Safety.WaitOk, Safety.AnswersOk, Safety.SpacingOk, Safety.OneClosing;
    assert Safety.EnvOk(Safety.EnvOf(w));
  }

  lemma DeliverKeepsInvariant(s: System, i: InstallationId, config: Config, periods: Sealing.Periods, move: Move)
    requires Invariant(s, i, periods) && move.Deliver? && Possible(s, i, config, move) && config.tokenPerIncense > 0
    requires Sealing.Partition(periods.week) && Sealing.Partition(periods.month)
    ensures Invariant(Next(s, i, config, periods, move), i, periods)
  {
    hide Safety.Invariant, Consistent, Sealing.ArchiveTrue, Runs.CheckedTrue, Runs.CasesUntil, Runs.TodayOpen, Sealing.Partition, IdLinked,
         Host.Possible, Runs.Next, Verdict, VerdictOf, SameIntent;
    var id := move.id;
    var step := VoteStep(s, i, move);
    var after := Next(s, i, config, periods, move);
    PreparedUnderOwnId(s.host, id);
    DeliveryAnswers(s, i, config, periods, move);
    AuthorityKeepsLinked(s, i, config, periods, step);
    Runs.StepKeepsInvariant(s.authority, config, periods, step);
    Safety.StepKeepsInvariant(s.host, Host.Deliver(id, Verdict(s, config, i, move)));
    forall other | other in after.host.prepared
      ensures IdLinked(after.authority.db, i, after.host.prepared[other], other, after.host.verdicts)
    {
      DeliveredIsLinked(s, i, config, periods, move, other);
    }
  }

  lemma DeliveredIsLinked(s: System, i: InstallationId, config: Config, periods: Sealing.Periods, move: Move, other: RequestId)
    requires move.Deliver? && move.id in s.host.prepared && s.host.prepared[move.id].mode == Host.Online && other in s.host.prepared
    requires var id := move.id;
             var verdict := Verdict(s, config, i, move);
             var db := Runs.Next(s.authority, config, periods, VoteStep(s, i, move)).db;
             && (id in s.host.verdicts ==> s.host.verdicts[id] == verdict)
             && VerdictOf(db, i, id) == Some(verdict) && (i, id) in db.receipts
             && SameIntent(db.receipts[(i, id)], IntentOf(s.host.prepared[id].job))
             && (other != id ==> IdLinked(db, i, s.host.prepared[other], other, s.host.verdicts))
    ensures var after := Next(s, i, config, periods, move);
            IdLinked(after.authority.db, i, after.host.prepared[other], other, after.host.verdicts)
  {
    hide Runs.Next, VerdictOf, SameIntent, Verdict;
  }

  // ----- every move -----

  lemma MoveKeepsInvariant(s: System, i: InstallationId, config: Config, periods: Sealing.Periods, move: Move)
    requires Invariant(s, i, periods) && Possible(s, i, config, move) && config.tokenPerIncense > 0
    requires Sealing.Partition(periods.week) && Sealing.Partition(periods.month)
    ensures Invariant(Next(s, i, config, periods, move), i, periods)
  {
    hide Safety.Invariant, Consistent, Sealing.ArchiveTrue, Runs.CheckedTrue, Runs.CasesUntil, Runs.TodayOpen, Sealing.Partition, IdLinked,
         Host.Possible, Host.Next, Runs.Next, Runs.Possible;
    match move
    case HostMoves(step) =>
      Safety.StepKeepsInvariant(s.host, step);
      HostKeepsLinked(s, i, config, step);
    case AuthorityMoves(step) =>
      Runs.StepKeepsInvariant(s.authority, config, periods, step);
      AuthorityKeepsLinked(s, i, config, periods, step);
    case Deliver(_, _, _, _) => DeliverKeepsInvariant(s, i, config, periods, move);
  }

  ghost function Run(s: System, i: InstallationId, config: Config, periods: Sealing.Periods, moves: seq<Move>): System
    decreases |moves|
  {
    if moves == [] then s else Run(Next(s, i, config, periods, moves[0]), i, config, periods, moves[1..])
  }

  ghost predicate PossibleRun(s: System, i: InstallationId, config: Config, periods: Sealing.Periods, moves: seq<Move>)
    decreases |moves|
  {
    moves == [] ||
    (Possible(s, i, config, moves[0]) && PossibleRun(Next(s, i, config, periods, moves[0]), i, config, periods, moves[1..]))
  }

  /** Over any run of host and authority together, whatever the host was told about an online id is what the tables hold. */
  lemma {:induction false} RunKeepsInvariant(s: System, i: InstallationId, config: Config, periods: Sealing.Periods, moves: seq<Move>)
    requires Invariant(s, i, periods) && PossibleRun(s, i, config, periods, moves) && config.tokenPerIncense > 0
    requires Sealing.Partition(periods.week) && Sealing.Partition(periods.month)
    ensures Invariant(Run(s, i, config, periods, moves), i, periods)
    decreases |moves|
  {
    hide Invariant, Next, Possible, Sealing.Partition;
    if moves != [] {
      MoveKeepsInvariant(s, i, config, periods, moves[0]);
      RunKeepsInvariant(Next(s, i, config, periods, moves[0]), i, config, periods, moves[1..]);
    }
  }

  // ----- the ledger rows of the counted ids -----

  function RowOf(i: InstallationId, id: RequestId, direction: Direction): Filter {
    (v: VoteRow) => v.installationId == i && v.requestId == id && v.direction == direction
  }

  function RowsOf(i: InstallationId, ids: seq<RequestId>, direction: Direction): Filter {
    (v: VoteRow) => v.installationId == i && v.requestId in ids && v.direction == direction
  }

  /** At most one row has an id, so its total is that row's. */
  lemma {:induction false} TotalOfRow(votes: seq<VoteRow>, i: InstallationId, id: RequestId, direction: Direction)
    requires KeysUnique(votes)
    ensures var vote := FindVote(votes, i, id);
            Total(votes, RowOf(i, id, direction)) == if vote.Some? && vote.value.direction == direction then vote.value.accepted else 0
  {
    if votes != [] {
      var front, last := votes[..|votes| - 1], votes[|votes| - 1];
      if last.installationId == i && last.requestId == id {
        forall v | v in front ensures !RowOf(i, id, direction)(v) {
          var k :| 0 <= k < |front| && front[k] == v;
          assert votes[k] == v;
        }
        TotalNone(front, RowOf(i, id, direction));
      } else {
        TotalOfRow(front, i, id, direction);
      }
    }
  }

  /** What the tables hold of a linked id is what the host was told. */
  lemma LinkedAmount(db: Db, today: Day, i: InstallationId, p: Host.Prepared, id: RequestId, verdicts: map<RequestId, Host.Verdict>,
                     direction: Direction)
    requires Consistent(db, today) && IdLinked(db, i, p, id, verdicts)
    ensures Total(db.votes, RowOf(i, id, direction))
         == if p.mode == Host.Online && id in verdicts && p.job.direction == direction then Host.Amount(verdicts[id]) else 0
  {
    hide CasesOk, StatsOk, IncenseOk, UsedOk, SnapshotsOk, ReceiptsOk, FindVote, Total;
    Idempotency.ReceiptsMatchVotes(db, today, i, id);
    TotalOfRow(db.votes, i, id, direction);
  }

  /** The host's sum over distinct counted ids is the ledger's total over their rows. */
  lemma {:induction false} SumIsTotal(db: Db, today: Day, i: InstallationId, counted: seq<RequestId>,
                                      prepared: map<RequestId, Host.Prepared>, verdicts: map<RequestId, Host.Verdict>, direction: Direction)
    requires Consistent(db, today) && Linked(db, i, prepared, verdicts)
    requires Safety.Distinct(counted) && forall id :: id in counted ==> id in prepared
    ensures Safety.Sum(counted, prepared, verdicts, Safety.OnMode(Host.Online, direction)) == Total(db.votes, RowsOf(i, counted, direction))
    decreases |counted|
  {
    hide Consistent, IdLinked, Total;
    if counted == [] {
      TotalNone(db.votes, RowsOf(i, counted, direction));
    } else {
      var front, id := counted[..|counted| - 1], counted[|counted| - 1];
      SumIsTotal(db, today, i, front, prepared, verdicts, direction);
      LinkedAmount(db, today, i, prepared[id], id, verdicts, direction);
      assert id !in front;
      assert counted == front + [id];
      TotalSplits(db.votes, RowsOf(i, front, direction), RowOf(i, id, direction), RowsOf(i, counted, direction));
    }
  }

  /** The online timed ledger of the host, in memory and on disk and at any moment of any run of both sides, is the total of
      the authority's rows under exactly the ids it counted, of which there is at most one each. */
  lemma OnlineLedgerIsTheTables(s: System, i: InstallationId, config: Config, periods: Sealing.Periods, moves: seq<Move>, onDisk: bool)
    requires Invariant(s, i, periods) && PossibleRun(s, i, config, periods, moves) && config.tokenPerIncense > 0
    requires Sealing.Partition(periods.week) && Sealing.Partition(periods.month)
    ensures var after := Run(s, i, config, periods, moves);
            var d := if onDisk then after.host.disk else after.host.memory;
            var votes := after.authority.db.votes;
            && KeysUnique(votes) && Safety.Distinct(d.counted)
            && (Host.Online in d.state.incense ==>
                  && d.state.incense[Host.Online].lifetimeUp == Total(votes, RowsOf(i, d.counted, Up))
                  && d.state.incense[Host.Online].lifetimeDown == Total(votes, RowsOf(i, d.counted, Down)))
            && (Host.Online !in d.state.incense ==>
                  Total(votes, RowsOf(i, d.counted, Up)) == 0 && Total(votes, RowsOf(i, d.counted, Down)) == 0)
  {
    hide Run, PossibleRun, Runs.TodayOpen, Runs.CasesUntil, Runs.CheckedTrue, Sealing.ArchiveTrue, Sealing.Partition, Safety.Invariant;
    RunKeepsInvariant(s, i, config, periods, moves);
    var after := Run(s, i, config, periods, moves);
    BooksOfRun(after, i, onDisk, Up);
    BooksOfRun(after, i, onDisk, Down);
    UniqueKeys(after.authority.db, after.authority.today);
  }

  lemma UniqueKeys(db: Db, today: Day)
    requires Consistent(db, today)
    ensures KeysUnique(db.votes)
  {
    hide CasesOk, StatsOk, ReceiptsOk, IncenseOk, UsedOk, SnapshotsOk;
  }

  lemma BooksOfRun(s: System, i: InstallationId, onDisk: bool, direction: Direction)
    requires Safety.Invariant(s.host) && Consistent(s.authority.db, s.authority.today)
    requires Linked(s.authority.db, i, s.host.prepared, s.host.verdicts)
    ensures var d := if onDisk then s.host.disk else s.host.memory;
            var total := Total(s.authority.db.votes, RowsOf(i, d.counted, direction));
            && Safety.Distinct(d.counted)
            && (if Host.Online in d.state.incense
                then total == (var l := d.state.incense[Host.Online]; if direction == Up then l.lifetimeUp else l.lifetimeDown)
                else total == 0)
  {
    hide Consistent, Linked, Total, Safety.EnvOk, Safety.OnDisk, Safety.WaitOk, Safety.JobsKnown, Safety.ClosingsHeld, Safety.CandidatesOk,
         Safety.Sum;
    var d := if onDisk then s.host.disk else s.host.memory;
    var prepared, verdicts := s.host.prepared, s.host.verdicts;
    assert Safety.Fit(Safety.EnvOf(s.host), d);
    assert Safety.LedgerOk(d, prepared, verdicts, Host.Online);
    SumIsTotal(s.authority.db, s.authority.today, i, d.counted, prepared, verdicts, direction);
    if Host.Online !in d.state.incense {
      Safety.SumNone(d.counted, prepared, verdicts, Safety.OnMode(Host.Online, direction));
    }
  }

  /** What the host heard about an online id is what the tables hold of it at the end of any run, and stays so in any longer one. */
  lemma VerdictIsTheTables(s: System, i: InstallationId, config: Config, periods: Sealing.Periods, moves: seq<Move>, id: RequestId)
    requires Invariant(s, i, periods) && PossibleRun(s, i, config, periods, moves) && config.tokenPerIncense > 0
    requires Sealing.Partition(periods.week) && Sealing.Partition(periods.month)
    requires var host := Run(s, i, config, periods, moves).host; id in host.prepared && host.prepared[id].mode == Host.Online
    ensures var after := Run(s, i, config, periods, moves);
            && VerdictOf(after.authority.db, i, id) == (if id in after.host.verdicts then Some(after.host.verdicts[id]) else None)
            && (id in after.host.verdicts ==>
                  && (i, id) in after.authority.db.receipts
                  && var receipt, job := after.authority.db.receipts[(i, id)], after.host.prepared[id].job;
                  receipt.caseId == job.caseId && receipt.direction == job.direction && receipt.requestedCount == job.count)
  {
    hide Run, PossibleRun, Runs.Invariant, Safety.Invariant, Sealing.Partition;
    RunKeepsInvariant(s, i, config, periods, moves);
    var after := Run(s, i, config, periods, moves);
    assert IdLinked(after.authority.db, i, after.host.prepared[id], id, after.host.verdicts);
  }
}
