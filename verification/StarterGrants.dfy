/** The welcome gift: at most one per device and date over any run, and the balance rows hold exactly what was given. */
module StarterGrants {
  import opened Common
  import opened Ledger
  import opened VoteBudget
  import opened Database
  import opened Authority
  import opened Consistency
  import opened AuthoritySteps
  import opened AuthorityRuns
  import opened AuthorityEffects
  import opened Sums
  import Sealing = Archive

  type Grants = map<(Fingerprint, Day), Grant>

  function StarterAt(incense: Incense, d: Day): ((InstallationId, Day)) -> nat {
    (k: (InstallationId, Day)) => if k in incense && k.1 == d then incense[k].starter else 0
  }

  function GrantAt(grants: Grants, d: Day): ((Fingerprint, Day)) -> nat {
    (k: (Fingerprint, Day)) => if k in grants && k.1 == d then grants[k].tokens else 0
  }

  /** Gift tokens on all balance rows of a date, and gifts recorded for the date. */
  ghost function StarterTotal(incense: Incense, d: Day): nat { Sum(incense.Keys, StarterAt(incense, d)) }

  ghost function GrantTotal(grants: Grants, d: Day): nat { Sum(grants.Keys, GrantAt(grants, d)) }

  ghost predicate GiftsBalance(incense: Incense, grants: Grants) {
    forall d :: StarterTotal(incense, d) == GrantTotal(grants, d)
  }

  /** A grant, once given, is never changed or taken back, so no device gets a second one for the date. */
  predicate GrantsKept(grants: Grants, after: Grants) {
    forall k :: k in grants ==> k in after && after[k] == grants[k]
  }

  /** Rows that keep their gifts, or are new without one. */
  predicate GiftsKept(incense: Incense, after: Incense) {
    && (forall k :: k in incense ==> k in after && after[k].starter == incense[k].starter)
    && (forall k :: k in after && k !in incense ==> after[k].starter == 0)
  }

  lemma {:induction false} MoreRows(incense: Incense, after: Incense, extra: set<(InstallationId, Day)>, d: Day)
    requires GiftsKept(incense, after) && after.Keys == incense.Keys + extra && extra !! incense.Keys
    ensures Sum(incense.Keys + extra, StarterAt(after, d)) == StarterTotal(incense, d)
    decreases |extra|
  {
    SumSplit(incense.Keys, extra, StarterAt(after, d));
    SumSame(incense.Keys, StarterAt(after, d), StarterAt(incense, d));
    SumZero(extra, StarterAt(after, d));
  }

  lemma {:induction false} SumSplit<K(!new)>(a: set<K>, b: set<K>, f: K -> nat)
    requires a !! b
    ensures Sum(a + b, f) == Sum(a, f) + Sum(b, f)
    decreases |b|
  {
    if b == {} {
      assert a + b == a;
    } else {
      var k := Pick(b);
      SumSplit(a, b - {k}, f);
      SumAdd(a + (b - {k}), k, f);
      assert a + (b - {k}) + {k} == a + b;
    }
  }

  lemma GiftsKeptBalance(incense: Incense, after: Incense, grants: Grants)
    requires GiftsBalance(incense, grants) && GiftsKept(incense, after)
    ensures GiftsBalance(after, grants)
  {
    forall d ensures StarterTotal(after, d) == GrantTotal(grants, d) {
      var extra := after.Keys - incense.Keys;
      assert incense.Keys + extra == after.Keys;
      MoreRows(incense, after, extra, d);
      assert StarterTotal(incense, d) == GrantTotal(grants, d);
    }
  }

  /** One gift raises the row's gift and the record by the same amount, on the same date. */
  lemma GiftBalances(incense: Incense, grants: Grants, i: InstallationId, fingerprint: Fingerprint, day: Day, tokens: nat)
    requires GiftsBalance(incense, grants) && (i, day) in incense && (fingerprint, day) !in grants
    ensures var row := incense[(i, day)];
            GiftsBalance(incense[(i, day) := row.(claimed := row.claimed + tokens, starter := row.starter + tokens)],
                         grants[(fingerprint, day) := Grant(i, tokens)])
  {
    var row := incense[(i, day)];
    var after := incense[(i, day) := row.(claimed := row.claimed + tokens, starter := row.starter + tokens)];
    var given := grants[(fingerprint, day) := Grant(i, tokens)];
    assert after.Keys == incense.Keys && given.Keys == grants.Keys + {(fingerprint, day)};
    forall d ensures StarterTotal(after, d) == GrantTotal(given, d) {
      assert StarterTotal(incense, d) == GrantTotal(grants, d);
      SumChange(incense.Keys, (i, day), StarterAt(incense, d), StarterAt(after, d));
      SumAdd(grants.Keys, (fingerprint, day), GrantAt(given, d));
      SumSame(grants.Keys, GrantAt(given, d), GrantAt(grants, d));
    }
  }

  ghost predicate GiftsOk(db: Db, after: Db) {
    GiftsBalance(after.incense, after.grants) && GrantsKept(db.grants, after.grants)
  }

  lemma NewRowIsGiftless(incense: Incense, k: (InstallationId, Day), tokenPerIncense: nat)
    ensures k !in incense ==> GiftsKept(incense, incense[k := IncenseRow(0, 0, tokenPerIncense, 0)])
    ensures GiftsKept(incense, incense)
  {
  }

  lemma GrantKeepsGifts(db: Db, config: Config, i: InstallationId, caseRow: CaseRow)
    requires GiftsBalance(db.incense, db.grants) && (i, caseRow.day) in db.incense
    ensures GiftsOk(db, TryGrantStarter(db, config, i, caseRow))
  {
    hide GiftsBalance;
    var fingerprint := FingerprintOf(db, i);
    if (fingerprint, caseRow.day) !in db.grants {
      GiftBalances(db.incense, db.grants, i, fingerprint, caseRow.day, config.starterIncenseCount * caseRow.tokenPerIncense);
    }
  }

  /** Steps that change no gift. */
  lemma SameGifts(db: Db, after: Db)
    requires GiftsBalance(db.incense, db.grants) && after.grants == db.grants && GiftsKept(db.incense, after.incense)
    ensures GiftsOk(db, after)
  {
    hide GiftsBalance;
    GiftsKeptBalance(db.incense, after.incense, db.grants);
  }

  lemma NewRowKeepsGifts(db: Db, i: InstallationId, day: Day, tokenPerIncense: nat)
    requires GiftsBalance(db.incense, db.grants)
    ensures var after := EnsureIncenseRow(db, i, day, tokenPerIncense); GiftsOk(db, after) && (i, day) in after.incense
  {
    hide GiftsBalance, GiftsKept, GiftsOk;
    NewRowIsGiftless(db.incense, (i, day), tokenPerIncense);
    SameGifts(db, EnsureIncenseRow(db, i, day, tokenPerIncense));
  }

  lemma EnsureRowKeepsGifts(db: Db, config: Config, i: InstallationId, caseRow: CaseRow)
    requires GiftsBalance(db.incense, db.grants)
    ensures GiftsOk(db, EnsureRow(db, config, i, caseRow))
  {
    hide GiftsBalance, GiftsOk, EnsureIncenseRow, TryGrantStarter;
    var row := EnsureIncenseRow(db, i, caseRow.day, caseRow.tokenPerIncense);
    NewRowKeepsGifts(db, i, caseRow.day, caseRow.tokenPerIncense);
    BalanceOfOk(db, row);
    GrantKeepsGifts(row, config, i, caseRow);
    KeptTransitive(db, row, TryGrantStarter(row, config, i, caseRow));
  }

  lemma RaiseKeepsGifts(db: Db, i: InstallationId, day: Day, claimed: nat)
    ensures var after := RaiseClaim(db, i, day, claimed); after.grants == db.grants && GiftsKept(db.incense, after.incense)
  {
    hide GiftsKept;
    UnchangedGifts(db.incense);
    if (i, day) in db.incense {
      SameStarter(db.incense, (i, day), db.incense[(i, day)].(claimed := claimed));
    }
  }

  lemma SameStarter(incense: Incense, k: (InstallationId, Day), row: IncenseRow)
    requires k in incense && row.starter == incense[k].starter
    ensures GiftsKept(incense, incense[k := row])
  {
  }

  lemma ResetKeepsGifts(db: Db, day: Day)
    ensures var after := ResetUsedFor(db, day); after.grants == db.grants && GiftsKept(db.incense, after.incense)
  {
  }

  lemma SpendKeepsGifts(db: Db, i: InstallationId, day: Day, count: nat)
    ensures GiftsKept(db.incense, SpendIncense(db, i, day, count).incense)
  {
    hide GiftsKept;
    UnchangedGifts(db.incense);
    if CanSpend(db, i, day, count) {
      SameStarter(db.incense, (i, day), db.incense[(i, day)].(used := db.incense[(i, day)].used + count));
    }
  }

  lemma AcceptKeepsGifts(db: Db, i: InstallationId, intent: Intent, active: CaseRow, spent: nat, now: int)
    ensures var after := AcceptVote(db, i, intent, active, spent, now); after.grants == db.grants && GiftsKept(db.incense, after.incense)
  {
    hide Voters, SpendIncense, ApplyToStats, PublishSnapshot, NewVote, GiftsKept;
    var first := i !in Voters(db.votes, OfCase(intent.caseId));
    SpendKeepsGifts(db, i, active.day, spent);
    SpendFrame(db, i, active.day, spent);
    var recorded := SpendIncense(db, i, active.day, spent).(
      votes := db.votes + [NewVote(db, i, intent, active.day, spent, now)],
      receipts := db.receipts[(i, intent.requestId) := Receipt(intent.caseId, active.day, intent.direction, intent.count, AcceptedOnce)]);
    StatsFrame(recorded, intent.caseId, intent.direction, spent, first);
    SnapshotFrame(ApplyToStats(recorded, intent.caseId, intent.direction, spent, first), active.id, now);
  }

  lemma KeptTransitive(a: Db, b: Db, c: Db)
    requires GiftsOk(a, b) && GiftsOk(b, c)
    ensures GiftsOk(a, c)
  {
  }

  lemma ItselfKept(db: Db)
    requires GiftsBalance(db.incense, db.grants)
    ensures GiftsOk(db, db)
  {
  }

  lemma VoteKeepsGifts(db: Db, config: Config, i: InstallationId, intent: Intent, active: CaseRow, now: int, maxSpend: Limit)
    requires GiftsBalance(db.incense, db.grants)
    ensures GiftsOk(db, Vote(db, config, i, intent, active, now, maxSpend).0)
  {
    hide GiftsBalance, GiftsKept, GrantsKept, GiftsOk, EnsureRow, AcceptVote, ClampedSpend, CanSpend, Replay, RecordRejected;
    ItselfKept(db);
    RejectsKeepGifts(db, i, intent, active);
    if intent.caseId in db.cases {
      var ready := EnsureRow(db, config, i, db.cases[intent.caseId]);
      var spent := ClampedSpend(ready, i, intent, active.day, maxSpend);
      EnsureRowKeepsGifts(db, config, i, db.cases[intent.caseId]);
      BalanceOfOk(db, ready);
      RejectsKeepGifts(ready, i, intent, active);
      AcceptKeepsGifts(ready, i, intent, active, spent, now);
      SameGifts(ready, AcceptVote(ready, i, intent, active, spent, now));
      KeptTransitive(db, ready, AcceptVote(ready, i, intent, active, spent, now));
      KeptTransitive(db, ready, RecordRejected(ready, i, intent, active, InsufficientIncense, NO_INCENSE).0);
    }
  }

  lemma BalanceOfOk(db: Db, after: Db)
    requires GiftsOk(db, after)
    ensures GiftsBalance(after.incense, after.grants)
  {
  }

  lemma RejectsKeepGifts(db: Db, i: InstallationId, intent: Intent, active: CaseRow)
    requires GiftsBalance(db.incense, db.grants)
    ensures forall reason, message :: GiftsOk(db, RecordRejected(db, i, intent, active, reason, message).0)
  {
    hide GiftsBalance;
  }

  lemma PublishKeepsGifts(db: Db, config: Config, id: CaseId, title: string, today: Day, now: int)
    ensures var r := PublishCase(db, config, id, title, today, now);
            r.Some? ==> r.value.grants == db.grants && GiftsKept(db.incense, r.value.incense)
  {
    hide HasActive, CloseCasesBefore, CloseActiveFor, ResetUsedFor, GiftsKept;
    CloseFrame(db, today);
    var closed := CloseCasesBefore(db, today);
    CloseFrame(closed, today);
    ResetKeepsGifts(if HasActive(closed, today) then CloseActiveFor(closed, today) else closed, today);
  }

  /** Every step of the authority keeps the balance of gifts, and keeps every grant; identities may change arbitrarily. */
  lemma StepKeepsGifts(w: World, config: Config, periods: Sealing.Periods, step: Step)
    requires GiftsBalance(w.db.incense, w.db.grants)
    ensures GiftsOk(w.db, Next(w, config, periods, step).db)
  {
    hide GiftsBalance, GiftsKept, GiftsOk, Vote, EnsureRow, PublishCase, Rotate, HasActive, ResetUsedFor, WipeVotes, RaiseClaim, ClaimTarget;
    ItselfKept(w.db);
    var after := Next(w, config, periods, step).db;
    match step
    case EnsureCase(p, day, id, title, now) => RotateKeepsGifts(w.db, config, periods, id, title, day, now); UnchangedGifts(w.db.incense); SameGifts(w.db, after);
    case CastVote(i, intent, active, now, maxSpend) => VoteKeepsGifts(w.db, config, i, intent, active, now, maxSpend);
    case Touch(i, caseRow) => EnsureRowKeepsGifts(w.db, config, i, caseRow);
    case Claim(i, caseRow, claimDay, requested) => ClaimKeepsGifts(w.db, config, i, caseRow, claimDay, requested);
    case Publish(day, id, title, now) =>
      PublishKeepsGifts(w.db, config, id, title, day, now);
      UnchangedGifts(w.db.incense);
      SameGifts(w.db, after);
    case Reset(day, now) =>
      WipeFrame(w.db, day, now);
      ResetKeepsGifts(WipeVotes(w.db, day, now), day);
      UnchangedGifts(w.db.incense);
      SameGifts(w.db, after);
    case Administer(_, _) => UnchangedGifts(w.db.incense); SameGifts(w.db, after);
  }

  lemma UnchangedGifts(incense: Incense)
    ensures GiftsKept(incense, incense)
  {
  }

  lemma WipeFrame(db: Db, day: Day, now: int)
    ensures WipeVotes(db, day, now).incense == db.incense && WipeVotes(db, day, now).grants == db.grants
  {
    hide SurvivingCases, SurvivingReceipts, Kept;
  }

  lemma RotateKeepsGifts(db: Db, config: Config, periods: Sealing.Periods, id: CaseId, title: string, today: Day, now: int)
    ensures var r := Rotate(db, config, periods, id, title, today, now); r.Some? ==> r.value.grants == db.grants && r.value.incense == db.incense
  {
    hide Sealing.Finalize, HasActive, CloseCasesBefore;
    CloseFrame(db, today);
  }

  lemma ClaimKeepsGifts(db: Db, config: Config, i: InstallationId, caseRow: CaseRow, claimDay: Day, requested: nat)
    requires GiftsBalance(db.incense, db.grants)
    ensures GiftsOk(db, ApplyTokenClaim(db, config, i, caseRow, claimDay, requested).0)
  {
    hide GiftsBalance, GiftsKept, GiftsOk, EnsureRow, RaiseClaim, ClaimTarget;
    ItselfKept(db);
    EnsureRowKeepsGifts(db, config, i, caseRow);
    var ready := EnsureRow(db, config, i, caseRow);
    BalanceOfOk(db, ready);
    var claimed := if (i, caseRow.day) in ready.incense then ready.incense[(i, caseRow.day)].claimed else 0;
    var raised := RaiseClaim(ready, i, caseRow.day, ClaimTarget(claimed, requested, config.absurdClaimTokens));
    RaiseKeepsGifts(ready, i, caseRow.day, ClaimTarget(claimed, requested, config.absurdClaimTokens));
    SameGifts(ready, raised);
    KeptTransitive(db, ready, raised);
  }

  /** Over any run of admissions, unbinds, re-keys, bootstraps, claims, votes, publishes and resets: the gifts on the rows of a
      date sum to the grants of the date, and each device keeps the one grant it got for it. */
  lemma {:induction false} RunKeepsGifts(w: World, config: Config, periods: Sealing.Periods, steps: seq<Step>)
    requires GiftsBalance(w.db.incense, w.db.grants)
    ensures GiftsOk(w.db, Run(w, config, periods, steps).db)
    decreases |steps|
  {
    hide GiftsBalance, GiftsOk, Next;
    if steps == [] {
      ItselfKept(w.db);
    } else {
      var next := Next(w, config, periods, steps[0]);
      StepKeepsGifts(w, config, periods, steps[0]);
      BalanceOfOk(w.db, next.db);
      RunKeepsGifts(next, config, periods, steps[1..]);
      KeptTransitive(w.db, next.db, Run(next, config, periods, steps[1..]).db);
    }
  }

  // ----- what a gift is worth -----

  /** Cases and balance rows carry the configured rate, and every gift is the configured number of sticks at it. */
  predicate AtRate(cases: map<CaseId, CaseRow>, incense: Incense, grants: Grants, config: Config) {
    && (forall c :: c in cases ==> cases[c].tokenPerIncense == config.tokenPerIncense)
    && (forall k :: k in incense ==> incense[k].tokenPerIncense == config.tokenPerIncense)
    && (forall k :: k in grants ==> grants[k].tokens == config.starterIncenseCount * config.tokenPerIncense)
  }

  predicate DbAtRate(db: Db, config: Config) { AtRate(db.cases, db.incense, db.grants, config) }

  /** The case row a request carries is one of the authority's, however stale. */
  predicate CarriesRate(step: Step, config: Config) {
    match step
    case Touch(_, caseRow) => caseRow.tokenPerIncense == config.tokenPerIncense
    case Claim(_, caseRow, _, _) => caseRow.tokenPerIncense == config.tokenPerIncense
    case _ => true
  }

  lemma EnsureRowKeepsRate(db: Db, config: Config, i: InstallationId, caseRow: CaseRow)
    requires DbAtRate(db, config) && caseRow.tokenPerIncense == config.tokenPerIncense
    ensures DbAtRate(EnsureRow(db, config, i, caseRow), config)
  {
    hide EnsureRow, GiftDue;
    GiftExactly(db, config, i, caseRow);
  }

  lemma AcceptKeepsRate(db: Db, config: Config, i: InstallationId, intent: Intent, active: CaseRow, spent: nat, now: int)
    requires DbAtRate(db, config) && CanSpend(db, i, active.day, spent)
    ensures DbAtRate(AcceptVote(db, i, intent, active, spent, now), config)
  {
    hide Voters, PublishSnapshot, ApplyToStats, NewVote;
    var first := i !in Voters(db.votes, OfCase(intent.caseId));
    var recorded := SpendIncense(db, i, active.day, spent).(
      votes := db.votes + [NewVote(db, i, intent, active.day, spent, now)],
      receipts := db.receipts[(i, intent.requestId) := Receipt(intent.caseId, active.day, intent.direction, intent.count, AcceptedOnce)]);
    StatsFrame(recorded, intent.caseId, intent.direction, spent, first);
    SnapshotFrame(ApplyToStats(recorded, intent.caseId, intent.direction, spent, first), active.id, now);
  }

  lemma VoteKeepsRate(db: Db, config: Config, i: InstallationId, intent: Intent, active: CaseRow, now: int, maxSpend: Limit)
    requires DbAtRate(db, config)
    ensures DbAtRate(Vote(db, config, i, intent, active, now, maxSpend).0, config)
  {
    hide Vote, EnsureRow, AcceptVote, AtRate, CanSpend;
    VoteHasShape(db, config, i, intent, active, now, maxSpend);
    var after := Vote(db, config, i, intent, active, now, maxSpend).0;
    if after != db.(receipts := after.receipts) {
      CaseAtRate(db, config, intent.caseId);
      var ready := EnsureRow(db, config, i, db.cases[intent.caseId]);
      EnsureRowKeepsRate(db, config, i, db.cases[intent.caseId]);
      if after != ready.(receipts := after.receipts) {
        var spent: nat :| Spends(ready, after, i, intent, active, now, spent);
        AcceptKeepsRate(ready, config, i, intent, active, spent, now);
      }
    }
  }

  lemma CaseAtRate(db: Db, config: Config, c: CaseId)
    requires DbAtRate(db, config) && c in db.cases
    ensures db.cases[c].tokenPerIncense == config.tokenPerIncense
  {
  }

  lemma OpeningKeepsRate(db: Db, after: Db, config: Config, id: CaseId, title: string, day: Day, now: int)
    requires DbAtRate(db, config) && OpensFresh(db, after, config, id, title, day, now) && after.grants == db.grants
    requires after.incense == db.incense || ClearsUsed(db.incense, after.incense, day)
    ensures DbAtRate(after, config)
  {
    forall c | c in after.cases ensures after.cases[c].tokenPerIncense == config.tokenPerIncense {
      if c != id {
        assert c in db.cases.Keys + {id};
      }
    }
  }

  lemma RotateKeepsRate(db: Db, config: Config, periods: Sealing.Periods, id: CaseId, title: string, day: Day, now: int)
    requires DbAtRate(db, config)
    ensures var r := Rotate(db, config, periods, id, title, day, now); r.Some? ==> DbAtRate(r.value, config)
  {
    hide Rotate, HasActive, OpensFresh;
    RotationExactly(db, config, periods, id, title, day, now);
    var r := Rotate(db, config, periods, id, title, day, now);
    if r.Some? && !HasActive(db, day) {
      OpeningKeepsRate(db, r.value, config, id, title, day, now);
    }
  }

  lemma StepKeepsRate(w: World, config: Config, periods: Sealing.Periods, step: Step)
    requires DbAtRate(w.db, config) && CarriesRate(step, config)
    ensures DbAtRate(Next(w, config, periods, step).db, config)
  {
    hide AtRate, Vote, EnsureRow, ApplyTokenClaim, PublishCase, Rotate, ResetToday, OpensFresh, ClearsUsed, HasActive;
    match step {
      case EnsureCase(p, day, id, title, now) => RotateKeepsRate(w.db, config, periods, id, title, day, now);
      case CastVote(i, intent, active, now, maxSpend) => VoteKeepsRate(w.db, config, i, intent, active, now, maxSpend);
      case Touch(i, caseRow) => EnsureRowKeepsRate(w.db, config, i, caseRow);
      case Claim(i, caseRow, claimDay, requested) => ClaimKeepsRate(w.db, config, i, caseRow, claimDay, requested);
      case Publish(day, id, title, now) =>
        PublishExactly(w.db, config, id, title, day, now);
        var r := PublishCase(w.db, config, id, title, day, now);
        if r.Some? {
          OpeningKeepsRate(w.db, r.value, config, id, title, day, now);
        }
      case Reset(day, now) => ResetKeepsRate(w.db, config, day, now);
      case Administer(_, _) =>
    }
  }

  lemma ClaimKeepsRate(db: Db, config: Config, i: InstallationId, caseRow: CaseRow, claimDay: Day, requested: nat)
    requires DbAtRate(db, config) && caseRow.tokenPerIncense == config.tokenPerIncense
    ensures DbAtRate(ApplyTokenClaim(db, config, i, caseRow, claimDay, requested).0, config)
  {
    hide EnsureRow, ApplyTokenClaim, LargestClaim;
    ClaimExactly(db, config, i, caseRow, claimDay, requested);
    EnsureRowKeepsRate(db, config, i, caseRow);
  }

  lemma ResetKeepsRate(db: Db, config: Config, day: Day, now: int)
    requires DbAtRate(db, config)
    ensures var r := ResetToday(db, day, now); r.Some? ==> DbAtRate(r.value, config)
  {
    hide ResetToday, HasActive, StartsOver, KeepsCounts;
    ResetExactly(db, day, now);
  }

  /** Over any run whose requests carry case rows of the authority, every gift on record is worth exactly the configured number of
      sticks, at the rate of every case and balance row. */
  lemma {:induction false} RunKeepsRate(w: World, config: Config, periods: Sealing.Periods, steps: seq<Step>)
    requires DbAtRate(w.db, config) && forall step :: step in steps ==> CarriesRate(step, config)
    ensures DbAtRate(Run(w, config, periods, steps).db, config)
    decreases |steps|
  {
    hide AtRate, DbAtRate, Next, CarriesRate;
    if steps != [] {
      StepKeepsRate(w, config, periods, steps[0]);
      RunKeepsRate(Next(w, config, periods, steps[0]), config, periods, steps[1..]);
    }
  }
}
