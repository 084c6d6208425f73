/** The vote response: what the authority builds from its tables, and what the host's validators demand of it. */
module VoteResponse {
  import opened Common
  import opened Arithmetic
  import opened Ledger
  import opened VoteBudget
  import opened Database
  import opened Authority
  import opened Consistency
  import Archive
  import AuthorityRuns
  import AuthoritySteps
  import Idempotency
  import Liangzi

  datatype Parsed<T> = Ok(value: T) | Refused(field: string)

  datatype PersonalWire = PersonalWire(
    day: Day, claimed: int, starter: int, earned: int, used: int, remaining: int, remainder: int, toNext: int, tokenPerIncense: int)

  datatype Ratio = Null | Of(value: real)

  datatype SnapshotWire = SnapshotWire(
    caseId: CaseId, up: int, down: int, total: int, uniqueVoters: int, upRatio: Ratio, downRatio: Ratio,
    state: Liangzi.State, sequence: int, capturedAt: int, lifetimeIncense: int, lifetimeVoters: int)

  datatype Response = Response(result: VoteResult, personal: PersonalWire, sequence: int, capturedAt: int, snapshot: SnapshotWire)

  // ----- the authority's side -----

  /** The personal state of an installation under a case; refuses (throws) what the accounting fold refuses. */
  function PersonalOf(db: Db, i: InstallationId, caseRow: CaseRow): Parsed<PersonalWire> {
    var k := (i, caseRow.day);
    var row := if k in db.incense then db.incense[k] else IncenseRow(0, 0, caseRow.tokenPerIncense, 0);
    if !IsCount(row.claimed) || !IsCount(row.used) then Refused("count")
    else
      var fold := DerivePersonal(row.claimed, row.used, row.tokenPerIncense);
      if !fold.Folded? then Refused("used_exceeds_earned")
      else
        var p := fold.state;
        Ok(PersonalWire(caseRow.day, row.claimed, row.starter, p.earned, p.used, p.remaining, p.remainder, p.toNext, p.tokenPerIncense))
  }

  function RatioOf(part: nat, total: nat): Ratio {
    if total == 0 then Null else Of(part as real / total as real)
  }

  /** Sum of every aggregate, and distinct installations of the whole ledger. */
  ghost function LifetimeIncense(db: Db): nat {
    Archive.SumStats(db.stats, db.stats.Keys, Up) + Archive.SumStats(db.stats, db.stats.Keys, Down)
  }

  function Everything(): Filter { (v: VoteRow) => true }

  ghost function SnapshotOf(db: Db, c: CaseId, policy: Liangzi.Policy): Parsed<SnapshotWire> {
    var rows := SnapshotsOf(db, c);
    if rows == [] then Refused("no snapshot")
    else
      var row := rows[|rows| - 1];
      var total := row.up + row.down;
      if !IsCount(row.up) || !IsCount(row.down) then Refused("invalid_vote_count")
      else
        var state := Liangzi.DeriveState(row.up, row.down, policy);
        if !state.Ok? then Refused("policy")
        else Ok(SnapshotWire(c, row.up, row.down, total, row.uniqueVoters, RatioOf(row.up, total), RatioOf(row.down, total),
                             state.value, row.sequence, row.capturedAt, LifetimeIncense(db), |Voters(db.votes, Everything())|))
  }

  ghost function ResponseOf(db: Db, i: InstallationId, caseRow: CaseRow, policy: Liangzi.Policy, result: VoteResult): Parsed<Response> {
    match (PersonalOf(db, i, caseRow), SnapshotOf(db, caseRow.id, policy))
    case (Ok(personal), Ok(snapshot)) => Ok(Response(result, personal, snapshot.sequence, snapshot.capturedAt, snapshot))
    case (Refused(field), _) => Refused(field)
    case (_, Refused(field)) => Refused(field)
  }

  // ----- the host's side -----

  function ParsePersonal(w: PersonalWire): Parsed<PersonalWire> {
    if !IsCount(w.tokenPerIncense) then Refused("token_per_incense")
    else if w.tokenPerIncense <= 0 then Refused("token_per_incense")
    else if !IsCount(w.claimed) then Refused("claimed_effective_tokens")
    else if !IsCount(w.starter) || w.starter > w.claimed then Refused("starter_tokens")
    else if !IsCount(w.used) then Refused("used_incense")
    else if !IsCount(w.earned) || w.earned != w.claimed / w.tokenPerIncense || w.used > w.earned then Refused("earned_incense")
    else if !IsCount(w.remaining) || w.remaining != w.earned - w.used then Refused("remaining_incense")
    else if !IsCount(w.remainder) || w.remainder != w.claimed % w.tokenPerIncense then Refused("token_remainder")
    else if !IsCount(w.toNext) || w.toNext != w.tokenPerIncense - w.remainder then Refused("tokens_to_next_incense")
    else Ok(w)
  }

  predicate Near(a: real, b: real) { -0.000000001 <= a - b <= 0.000000001 }

  predicate RatioMatches(ratio: Ratio, part: int, total: int)
    requires total > 0
  {
    ratio.Of? && 0.0 <= ratio.value <= 1.0 && Near(ratio.value, part as real / total as real)
  }

  /** The snapshot validator; the state label is recomputed from the counts. */
  function ParseSnapshot(w: SnapshotWire, policy: Liangzi.Policy): Parsed<SnapshotWire> {
    if !IsCount(w.up) then Refused("up_votes")
    else if !IsCount(w.down) then Refused("down_votes")
    else if !IsCount(w.total) || w.total != w.up + w.down then Refused("total_incense")
    else if !IsCount(w.uniqueVoters) || w.uniqueVoters > w.total then Refused("unique_voters")
    else if w.total == 0 && !(w.upRatio.Null? && w.downRatio.Null?) then Refused("up_ratio")
    else if w.total > 0 && !(RatioMatches(w.upRatio, w.up, w.total) && RatioMatches(w.downRatio, w.down, w.total)) then Refused("up_ratio")
    else
      var state := Liangzi.DeriveState(w.up, w.down, policy);
      if !state.Ok? then Refused("policy_version")
      else if !IsCount(w.sequence) then Refused("sequence")
      else if !IsCount(w.lifetimeIncense) then Refused("lifetime_incense")
      else if !IsCount(w.lifetimeVoters) then Refused("lifetime_voters")
      else Ok(w.(state := state.value))
  }

  function ParseResult(r: VoteResult): Parsed<VoteResult> {
    match r
    case Accepted(_, used, remaining, spent, accepted, _) =>
      if IsCount(used) && IsCount(remaining) && IsCount(spent) && IsCount(accepted) then Ok(r) else Refused("result")
    case Rejected(_, message) => if message == "" then Refused("result.message") else Ok(r)
  }

  function Parse(r: Response, policy: Liangzi.Policy): Parsed<Response> {
    match ParsePersonal(r.personal)
    case Refused(field) => Refused(field)
    case Ok(personal) =>
      match ParseResult(r.result)
      case Refused(field) => Refused(field)
      case Ok(result) =>
        if result.Accepted? && (result.used != personal.used || result.remaining != personal.remaining) then Refused("result")
        else
          match ParseSnapshot(r.snapshot, policy)
          case Refused(field) => Refused(field)
          case Ok(snapshot) =>
            if !IsCount(r.sequence) || snapshot.sequence != r.sequence then Refused("snapshot_version")
            else Ok(Response(result, personal, r.sequence, r.capturedAt, snapshot))
  }

  // ----- what is accepted -----

  /** A personal state is accepted exactly when its counts are safe, the gift is part of the claim, and every derived field is what
      the accounting fold makes of claim, spend and rate. */
  lemma PersonalAcceptedExactly(w: PersonalWire)
    ensures ParsePersonal(w).Ok? <==>
              && 1 <= w.tokenPerIncense <= MAX_SAFE_INTEGER && IsCount(w.claimed) && IsCount(w.used) && 0 <= w.starter <= w.claimed
              && w.earned >= 0 && w.remainder >= 0
              && DerivePersonal(w.claimed, w.used, w.tokenPerIncense)
                 == Folded(Personal(w.claimed, w.tokenPerIncense, w.earned, w.used, w.remaining, w.remainder, w.toNext))
    ensures ParsePersonal(w).Ok? ==> ParsePersonal(w).value == w
  {
    if w.tokenPerIncense > 0 && w.claimed >= 0 {
      QuotientIsSmaller(w.claimed, w.tokenPerIncense);
    }
  }

  /** A snapshot is accepted exactly when its counts are safe and fit together and its ratios are those of the counts, up to 1e-9;
      its state label is replaced by the one its counts derive. */
  lemma SnapshotAcceptedExactly(w: SnapshotWire, policy: Liangzi.Policy)
    requires Liangzi.ValidPolicy(policy)
    ensures ParseSnapshot(w, policy).Ok? <==>
              && IsCount(w.up) && IsCount(w.down) && w.total == w.up + w.down <= MAX_SAFE_INTEGER && 0 <= w.uniqueVoters <= w.total
              && (w.total == 0 ==> w.upRatio.Null? && w.downRatio.Null?)
              && (w.total > 0 ==> RatioMatches(w.upRatio, w.up, w.total) && RatioMatches(w.downRatio, w.down, w.total))
              && IsCount(w.sequence) && IsCount(w.lifetimeIncense) && IsCount(w.lifetimeVoters)
    ensures ParseSnapshot(w, policy).Ok? ==>
              var s := ParseSnapshot(w, policy).value;
              s == w.(state := s.state) && Liangzi.DeriveState(w.up, w.down, policy) == Liangzi.Ok(s.state)
  {
    if w.up >= 0 && w.down >= 0 {
      StateExists(w.up, w.down, policy);
    }
  }

  /** A response is accepted exactly when its parts are, and result, personal state and snapshot tell the same. */
  lemma ResponseAcceptedExactly(r: Response, policy: Liangzi.Policy)
    ensures Parse(r, policy).Ok? <==>
              && ParsePersonal(r.personal).Ok? && ParseSnapshot(r.snapshot, policy).Ok? && r.sequence == r.snapshot.sequence
              && match r.result
                 case Accepted(_, used, remaining, spent, accepted, _) =>
                   used == r.personal.used && remaining == r.personal.remaining && IsCount(spent) && IsCount(accepted)
                 case Rejected(_, message) => message != ""
  {
    hide Liangzi.DeriveState;
  }

  // ----- every response passes -----

  lemma PersonalPasses(db: Db, i: InstallationId, caseRow: CaseRow)
    requires IncenseOk(db.incense) && caseRow.tokenPerIncense > 0
    ensures var k := (i, caseRow.day);
            var row := if k in db.incense then db.incense[k] else IncenseRow(0, 0, caseRow.tokenPerIncense, 0);
            var personal := PersonalOf(db, i, caseRow);
            && (personal.Ok? <==> IsCount(row.claimed))
            && (personal.Ok? ==>
                  && (ParsePersonal(personal.value).Ok? <==> IsCount(row.tokenPerIncense))
                  && (ParsePersonal(personal.value).Ok? ==> ParsePersonal(personal.value) == personal)
                  && personal.value.used == UsedFor(db, i, caseRow.day) && personal.value.remaining == RemainingFor(db, i, caseRow.day)
                  && personal.value.day == caseRow.day && personal.value.claimed == row.claimed && personal.value.starter == row.starter
                  && personal.value.tokenPerIncense == row.tokenPerIncense)
  {
    var k := (i, caseRow.day);
    var row := if k in db.incense then db.incense[k] else IncenseRow(0, 0, caseRow.tokenPerIncense, 0);
    assert BalanceOk(row);
    AffordabilityAgrees(row.claimed, row.used, row.tokenPerIncense, 0);
    QuotientIsSmaller(row.claimed, row.tokenPerIncense);
  }

  lemma QuotientIsSmaller(a: nat, b: nat)
    requires b > 0
    ensures 0 <= a / b <= a
  {
    QuotientReaches(a, b, a + 1);
    ProductGrows(a + 1, 1, b);
  }

  /** The aggregate of a case counts its voters at most as often as its sticks. */
  lemma VotersWithinTotal(db: Db, today: Day, c: CaseId)
    requires Consistent(db, today) && c in db.cases
    ensures c in db.stats && db.stats[c].uniqueVoters <= db.stats[c].up + db.stats[c].down
  {
    hide CasesOk, ReceiptsOk, IncenseOk, UsedOk, SnapshotsOk, Total, Voters, KeysUnique;
    forall v | v in db.votes ensures v.accepted >= 1 {
      assert VoteOk(db.cases, db.incense, db.receipts, v);
    }
    assert db.stats[c] == Recount(db.votes, c);
    VotersAtMostTotal(db.votes, OfCase(c));
    TotalSplits(db.votes, OnCase(c, Up), OnCase(c, Down), OfCase(c));
  }

  lemma RatioPasses(part: nat, total: nat)
    requires part <= total && total > 0
    ensures RatioMatches(RatioOf(part, total), part, total)
  {
    var ratio := part as real / total as real;
    assert ratio * total as real == part as real;
    assert 0.0 <= ratio <= 1.0;
  }

  /** The snapshot of a case passes exactly when its counts are safe integers, and comes out as it went in. */
  lemma SnapshotPasses(db: Db, today: Day, c: CaseId, policy: Liangzi.Policy)
    requires Consistent(db, today) && c in db.cases && Liangzi.ValidPolicy(policy)
    ensures var snapshot := SnapshotOf(db, c, policy);
            && db.snapshots.Keys == db.stats.Keys && c in db.snapshots && db.snapshots[c] != []
            && var latest := db.snapshots[c][|db.snapshots[c]| - 1];
            && (snapshot.Ok? <==> IsCount(latest.up) && IsCount(latest.down))
            && (snapshot.Ok? ==>
                  && (ParseSnapshot(snapshot.value, policy).Ok? <==>
                        IsCount(latest.up + latest.down) && IsCount(latest.sequence)
                        && IsCount(snapshot.value.lifetimeIncense) && IsCount(snapshot.value.lifetimeVoters))
                  && (ParseSnapshot(snapshot.value, policy).Ok? ==> ParseSnapshot(snapshot.value, policy) == snapshot)
                  && snapshot.value.caseId == c && snapshot.value.sequence == latest.sequence && snapshot.value.capturedAt == latest.capturedAt
                  && StatsRow(snapshot.value.up, snapshot.value.down, snapshot.value.uniqueVoters) == db.stats[c])
  {
    hide CasesOk, VotesOk, ReceiptsOk, IncenseOk, UsedOk, Recount, LifetimeIncense, Voters, Liangzi.DeriveState, RatioMatches, RatioOf;
    VotersWithinTotal(db, today, c);
    assert PublishedOk(db.snapshots[c], db.stats[c]);
    var latest := db.snapshots[c][|db.snapshots[c]| - 1];
    StateExists(latest.up, latest.down, policy);
    if latest.up + latest.down > 0 {
      RatioPasses(latest.up, latest.up + latest.down);
      RatioPasses(latest.down, latest.up + latest.down);
    } else {
      NoRatio(latest.up + latest.down);
    }
  }

  lemma NoRatio(total: nat)
    requires total == 0
    ensures RatioOf(0, total) == Null
  {
  }

  lemma StateExists(up: nat, down: nat, policy: Liangzi.Policy)
    requires Liangzi.ValidPolicy(policy)
    ensures Liangzi.DeriveState(up, down, policy).Ok?
  {
    if up + down > 0 {
      RatioPasses(up, up + down);
    }
  }

  /** The counts of a response that JavaScript must be able to represent. */
  ghost predicate Representable(db: Db, i: InstallationId, caseRow: CaseRow)
    requires caseRow.id in db.snapshots && db.snapshots[caseRow.id] != []
  {
    var row := if (i, caseRow.day) in db.incense then db.incense[(i, caseRow.day)] else IncenseRow(0, 0, caseRow.tokenPerIncense, 0);
    var latest := db.snapshots[caseRow.id][|db.snapshots[caseRow.id]| - 1];
    && IsCount(row.claimed) && IsCount(row.tokenPerIncense)
    && IsCount(latest.up + latest.down) && IsCount(latest.sequence)
    && IsCount(LifetimeIncense(db)) && IsCount(|Voters(db.votes, Everything())|)
  }

  /** What a result owes the state it is sent with. */
  predicate Carries(db: Db, i: InstallationId, day: Day, result: VoteResult) {
    match result
    case Accepted(_, used, remaining, spent, accepted, _) =>
      used == UsedFor(db, i, day) && remaining == RemainingFor(db, i, day) && spent <= VOTE_COUNT_MAX && accepted <= VOTE_COUNT_MAX
    case Rejected(_, message) => message != ""
  }

  lemma CasesHaveRates(db: Db, today: Day, c: CaseId)
    requires Consistent(db, today) && c in db.cases
    ensures db.cases[c].tokenPerIncense > 0 && IncenseOk(db.incense)
  {
    hide StatsOk, VotesOk, ReceiptsOk, IncenseOk, UsedOk, SnapshotsOk;
  }

  lemma ResponsePasses(db: Db, today: Day, i: InstallationId, caseRow: CaseRow, policy: Liangzi.Policy, result: VoteResult)
    requires Consistent(db, today) && caseRow.id in db.cases && db.cases[caseRow.id] == caseRow && Liangzi.ValidPolicy(policy)
    requires Carries(db, i, caseRow.day, result)
    ensures var sent := ResponseOf(db, i, caseRow, policy, result);
            && caseRow.id in db.snapshots && db.snapshots[caseRow.id] != []
            && (sent.Ok? && Parse(sent.value, policy).Ok? <==> Representable(db, i, caseRow))
            && (Representable(db, i, caseRow) ==> Parse(sent.value, policy) == sent)
  {
    hide Consistent, IncenseOk, ParsePersonal, ParseSnapshot, PersonalOf, SnapshotOf, RemainingFor, UsedFor, LifetimeIncense, Voters, Liangzi.ValidPolicy;
    CasesHaveRates(db, today, caseRow.id);
    PersonalPasses(db, i, caseRow);
    SnapshotPasses(db, today, caseRow.id, policy);
    LifetimeAsSent(db, caseRow.id, policy);
    CountersAreSmall(db, i, caseRow);
  }

  /** The lifetime figure is the ledger's total, however many cases and dates it spreads over. */
  lemma LifetimeCounts(db: Db, today: Day)
    requires Consistent(db, today)
    ensures LifetimeIncense(db) == Total(db.votes, Everything())
  {
    hide Consistent, Archive.SumStats;
    ConsistentLedger(db, today);
    StatsOfCases(db, today);
    var cases := db.cases.Keys;
    Archive.SumStatsIsTotal(db, cases, Up);
    Archive.SumStatsIsTotal(db, cases, Down);
    TotalSplits(db.votes, Archive.InCases(cases, Up), Archive.InCases(cases, Down), Everything());
  }

  lemma StatsOfCases(db: Db, today: Day)
    requires Consistent(db, today)
    ensures db.stats.Keys == db.cases.Keys
  {
  }

  lemma LifetimeAsSent(db: Db, c: CaseId, policy: Liangzi.Policy)
    ensures var snapshot := SnapshotOf(db, c, policy);
            snapshot.Ok? ==> snapshot.value.lifetimeIncense == LifetimeIncense(db)
                             && snapshot.value.lifetimeVoters == |Voters(db.votes, Everything())|
  {
    hide LifetimeIncense, Voters, Liangzi.DeriveState, RatioOf;
  }

  lemma CountersAreSmall(db: Db, i: InstallationId, caseRow: CaseRow)
    requires IncenseOk(db.incense) && caseRow.tokenPerIncense > 0
    ensures var row := if (i, caseRow.day) in db.incense then db.incense[(i, caseRow.day)] else IncenseRow(0, 0, caseRow.tokenPerIncense, 0);
            UsedFor(db, i, caseRow.day) <= row.claimed && RemainingFor(db, i, caseRow.day) <= row.claimed
  {
    if (i, caseRow.day) in db.incense {
      var row := db.incense[(i, caseRow.day)];
      assert BalanceOk(row);
      ProductGrows(row.used, 1, row.tokenPerIncense);
      QuotientIsSmaller(row.claimed, row.tokenPerIncense);
    }
  }

  /** Fresh or replayed, an answer carries the counters of the state it is sent with. */
  lemma AnswerCarries(db: Db, config: Config, i: InstallationId, intent: Intent, active: CaseRow, now: int, maxSpend: Limit, today: Day)
    requires Consistent(db, today)
    ensures var (after, result) := Vote(db, config, i, intent, active, now, maxSpend); Carries(after, i, active.day, result)
  {
    hide CasesOk, StatsOk, VotesOk, ReceiptsOk, IncenseOk, UsedOk, SnapshotsOk, EnsureRow, AcceptVote, CanSpend, RemainingFor, UsedFor,
         RecordRejected, ClampVoteSpend, FindVote;
    if (i, intent.requestId) in db.receipts {
      ReplayCarries(db, today, i, intent, active);
    } else if intent.caseId in db.cases {
      var ready := EnsureRow(db, config, i, db.cases[intent.caseId]);
      AuthoritySteps.RejectFrame(ready, i, intent, active, InsufficientIncense, NO_INCENSE);
      AuthoritySteps.RejectFrame(db, i, intent, active, CaseNotActive, "case " + intent.caseId + " is closed");
      AuthoritySteps.RejectFrame(db, i, intent, active, StaleCase, "case " + intent.caseId + " is not the active case");
      SpendIsBounded(ready, i, intent, active.day, maxSpend);
    } else {
      AuthoritySteps.RejectFrame(db, i, intent, active, StaleCase, "case " + intent.caseId + " does not exist");
    }
  }

  lemma SpendIsBounded(db: Db, i: InstallationId, intent: Intent, day: Day, maxSpend: Limit)
    ensures ClampedSpend(db, i, intent, day, maxSpend) <= VOTE_COUNT_MAX
  {
    hide RemainingFor;
  }

  lemma ReplayCarries(db: Db, today: Day, i: InstallationId, intent: Intent, active: CaseRow)
    requires Consistent(db, today) && (i, intent.requestId) in db.receipts
    ensures Carries(db, i, active.day, Replay(db, i, intent, db.receipts[(i, intent.requestId)], active))
  {
    hide CasesOk, StatsOk, IncenseOk, UsedOk, SnapshotsOk, RemainingFor, UsedFor, FindVote;
    var stored := FindVote(db.votes, i, intent.requestId);
    if stored.Some? {
      assert VoteOk(db.cases, db.incense, db.receipts, stored.value);
    }
  }

  /** In every reachable state, whatever happened before it, the answer to any vote - fresh, refused or replayed - passes the
      host's validators unchanged exactly when its counts are safe integers. */
  lemma EveryAnswerPasses(w: AuthorityRuns.World, config: Config, periods: Archive.Periods, i: InstallationId, intent: Intent, active: CaseRow,
                          now: int, maxSpend: Limit, policy: Liangzi.Policy)
    requires AuthorityRuns.Invariant(w, periods) && Liangzi.ValidPolicy(policy)
    requires active.id in w.db.cases && w.db.cases[active.id] == active
    ensures var (db, result) := Vote(w.db, config, i, intent, active, now, maxSpend);
            var sent := ResponseOf(db, i, active, policy, result);
            && active.id in db.snapshots && db.snapshots[active.id] != []
            && (sent.Ok? && Parse(sent.value, policy).Ok? <==> Representable(db, i, active))
            && (Representable(db, i, active) ==> Parse(sent.value, policy) == sent)
  {
    hide Consistent, Archive.ArchiveTrue, AuthorityRuns.CheckedTrue, AuthorityRuns.CasesUntil, Vote, ResponseOf, Parse, Representable, Liangzi.ValidPolicy;
    var (db, result) := Vote(w.db, config, i, intent, active, now, maxSpend);
    AuthoritySteps.VoteKeepsConsistent(w.db, config, i, intent, active, now, maxSpend, w.today);
    AnswerCarries(w.db, config, i, intent, active, now, maxSpend, w.today);
    VoteKeepsCases(w.db, config, i, intent, active, now, maxSpend, w.today);
    ResponsePasses(db, w.today, i, active, policy, result);
  }

  lemma VoteKeepsCases(db: Db, config: Config, i: InstallationId, intent: Intent, active: CaseRow, now: int, maxSpend: Limit, today: Day)
    requires Consistent(db, today)
    ensures Vote(db, config, i, intent, active, now, maxSpend).0.cases == db.cases
  {
    hide CasesOk, StatsOk, VotesOk, ReceiptsOk, IncenseOk, UsedOk, SnapshotsOk, Vote;
    AuthorityRuns.VoteFrame(db, config, i, intent, active, now, maxSpend);
  }
}
