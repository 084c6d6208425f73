/** The authority that the timed-dump protocol assumes is the one Authority.Vote implements. */
module TimedDumpAuthority {
  import opened Common
  import opened Ledger
  import opened VoteBudget
  import opened Database
  import opened Authority
  import opened Consistency
  import Idempotency
  import AuthoritySteps
  import TimedDump

  /** What the tables hold about a request id. */
  function VerdictOf(db: Db, i: InstallationId, id: RequestId): Option<TimedDump.Verdict> {
    if (i, id) !in db.receipts then None
    else if db.receipts[(i, id)].disposition.RejectedOnce? then Some(TimedDump.Rejected)
    else
      var vote := FindVote(db.votes, i, id);
      Some(TimedDump.Accepted(if vote.Some? then vote.value.accepted else 0))
  }

  function Heard(result: VoteResult): TimedDump.Verdict {
    if result.Accepted? then TimedDump.Accepted(result.accepted) else TimedDump.Rejected
  }

  /** Delivering a request once settles its id, for no more than was asked; delivering it again, or anything that only grows
      the tables, leaves every settled id as it was; and the answer is what was settled. */
  lemma VoteSettlesOnce(db: Db, today: Day, config: Config, i: InstallationId, intent: Intent, active: CaseRow, now: int, maxSpend: Limit)
    requires Consistent(db, today)
    requires (i, intent.requestId) in db.receipts ==> SameIntent(db.receipts[(i, intent.requestId)], intent)
    ensures var (after, result) := Vote(db, config, i, intent, active, now, maxSpend);
            && VerdictOf(after, i, intent.requestId) == Some(Heard(result))
            && TimedDump.Amount(Heard(result)) <= intent.count
            && Idempotency.Grows(db, after) && Consistent(after, today)
            && ((i, intent.requestId) in db.receipts ==> after == db)
  {
    hide Consistent, Vote, Idempotency.Grows, FindVote, SameIntent;
    var (after, result) := Vote(db, config, i, intent, active, now, maxSpend);
    AuthoritySteps.VoteKeepsConsistent(db, config, i, intent, active, now, maxSpend, today);
    ConsistentTables(db, today);
    Idempotency.VoteGrows(db, config, i, intent, active, now, maxSpend);
    Idempotency.AnswerIsStored(db, config, i, intent, active, now, maxSpend, today);
    SameIntentLater(db, today, config, i, intent, active, now, maxSpend);
    StoredIsVerdict(after, today, i, intent, result);
    Idempotency.StoredIsAnswered(after, config, i, intent, result, active, now, maxSpend, today);
    RepeatIsFree(db, config, i, intent, active, now, maxSpend);
  }

  lemma ConsistentTables(db: Db, today: Day)
    requires Consistent(db, today)
    ensures CasesOk(db.cases) && IncenseOk(db.incense)
  {
    hide CasesOk, StatsOk, VotesOk, ReceiptsOk, IncenseOk, UsedOk, SnapshotsOk;
  }

  lemma SameIntentLater(db: Db, today: Day, config: Config, i: InstallationId, intent: Intent, active: CaseRow, now: int, maxSpend: Limit)
    requires Consistent(db, today)
    requires (i, intent.requestId) in db.receipts ==> SameIntent(db.receipts[(i, intent.requestId)], intent)
    ensures var after := Vote(db, config, i, intent, active, now, maxSpend).0;
            (i, intent.requestId) in after.receipts && SameIntent(after.receipts[(i, intent.requestId)], intent)
  {
    hide Consistent, SameIntent, AcceptVote, EnsureRow, ClampedSpend, CanSpend, RecordRejected, Replay;
    if (i, intent.requestId) !in db.receipts {
      Idempotency.FirstReceipt(db, config, i, intent, active, now, maxSpend);
    }
  }

  lemma RepeatIsFree(db: Db, config: Config, i: InstallationId, intent: Intent, active: CaseRow, now: int, maxSpend: Limit)
    ensures (i, intent.requestId) in db.receipts ==> Vote(db, config, i, intent, active, now, maxSpend).0 == db
  {
    hide Replay, EnsureRow, AcceptVote;
  }

  lemma StoredIsVerdict(db: Db, today: Day, i: InstallationId, intent: Intent, result: VoteResult)
    requires Consistent(db, today) && Idempotency.Stored(db, i, intent, result)
    requires (i, intent.requestId) in db.receipts && SameIntent(db.receipts[(i, intent.requestId)], intent)
    ensures VerdictOf(db, i, intent.requestId) == Some(Heard(result)) && TimedDump.Amount(Heard(result)) <= intent.count
  {
    hide CasesOk, StatsOk, IncenseOk, UsedOk, SnapshotsOk, FindVote, KeysUnique;
    Idempotency.ReceiptsMatchVotes(db, today, i, intent.requestId);
    var vote := FindVote(db.votes, i, intent.requestId);
    if vote.Some? {
      assert VoteOk(db.cases, db.incense, db.receipts, vote.value);
    }
  }

  /** What is settled stays settled while the tables grow, which they do in every run without a wipe. */
  lemma SettledForEver(db: Db, after: Db, today: Day, later: Day, i: InstallationId, id: RequestId)
    requires Consistent(db, today) && Consistent(after, later) && Idempotency.Grows(db, after) && (i, id) in db.receipts
    ensures VerdictOf(after, i, id) == VerdictOf(db, i, id)
  {
    hide CasesOk, StatsOk, VotesOk, ReceiptsOk, IncenseOk, UsedOk, SnapshotsOk, FindVote, Consistent;
    Idempotency.ReceiptsMatchVotes(db, today, i, id);
    Idempotency.ReceiptsMatchVotes(after, later, i, id);
    var vote := FindVote(db.votes, i, id);
    if vote.Some? {
      assert vote.value in after.votes;
    }
  }
}
