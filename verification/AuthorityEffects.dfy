/** What each transaction leaves in the tables, stated on the tables alone. */
module AuthorityEffects {
  import opened Common
  import opened Arithmetic
  import opened Ledger
  import opened VoteBudget
  import opened Database
  import opened Archive
  import opened Authority
  import opened Consistency
  import opened AuthoritySteps
  import opened AuthorityRuns

  type Key = (InstallationId, Day)

  // ----- balance rows and gifts -----

  /** The balance row of a key, or the one its first contact opens. */
  function RowBefore(db: Db, k: Key, tokenPerIncense: nat): IncenseRow {
    if k in db.incense then db.incense[k] else IncenseRow(0, 0, tokenPerIncense, 0)
  }

  /** A device that got nothing for the date yet, and something to give. */
  predicate GiftDue(db: Db, config: Config, i: InstallationId, day: Day) {
    && config.starterIncenseCount > 0 && i in db.identities && db.identities[i].fingerprint != ""
    && (db.identities[i].fingerprint, day) !in db.grants
  }

  /** A first contact opens a row at the case's rate. When a gift is due, claim and gift of the row rise equally, by the
      configured sticks at the case's rate, so that many sticks more remain on a row of that rate; the one new grant records
      it. Otherwise the row is as it was, and nothing else ever changes. */
  lemma GiftExactly(db: Db, config: Config, i: InstallationId, caseRow: CaseRow)
    ensures var k := (i, caseRow.day);
            var before, after := RowBefore(db, k, caseRow.tokenPerIncense), EnsureRow(db, config, i, caseRow);
            && k in after.incense
            && var row := after.incense[k];
            && after == db.(incense := db.incense[k := row], grants := after.grants)
            && row.used == before.used && row.tokenPerIncense == before.tokenPerIncense
            && row.claimed - before.claimed == row.starter - before.starter
            && if GiftDue(db, config, i, caseRow.day) then
                 && after.grants == db.grants[(db.identities[i].fingerprint, caseRow.day) := Grant(i, row.starter - before.starter)]
                 && row.claimed - before.claimed == config.starterIncenseCount * caseRow.tokenPerIncense
                 && (BalanceOk(before) && before.tokenPerIncense == caseRow.tokenPerIncense ==>
                       RemainingOf(row) == RemainingOf(before) + config.starterIncenseCount)
               else after.grants == db.grants && row == before
  {
    hide RemainingOf, BalanceOk, TryGrantStarter, EnsureIncenseRow, GiftDue;
    var k := (i, caseRow.day);
    var before, withRow := RowBefore(db, k, caseRow.tokenPerIncense), EnsureIncenseRow(db, i, caseRow.day, caseRow.tokenPerIncense);
    OpensRow(db, config, i, caseRow.day, caseRow.tokenPerIncense);
    GrantExactly(withRow, config, i, caseRow);
    var row := EnsureRow(db, config, i, caseRow).incense[k];
    assert db.incense[k := before][k := row] == db.incense[k := row];
    if BalanceOk(before) && before.tokenPerIncense == caseRow.tokenPerIncense {
      MoreSticksRemain(before, config.starterIncenseCount);
    }
  }

  lemma OpensRow(db: Db, config: Config, i: InstallationId, day: Day, tokenPerIncense: nat)
    ensures EnsureIncenseRow(db, i, day, tokenPerIncense)
         == db.(incense := db.incense[(i, day) := RowBefore(db, (i, day), tokenPerIncense)])
    ensures GiftDue(EnsureIncenseRow(db, i, day, tokenPerIncense), config, i, day) <==> GiftDue(db, config, i, day)
  {
    if (i, day) in db.incense {
      assert db.incense[(i, day) := db.incense[(i, day)]] == db.incense;
    }
  }

  lemma GrantExactly(db: Db, config: Config, i: InstallationId, caseRow: CaseRow)
    requires (i, caseRow.day) in db.incense
    ensures var k, after := (i, caseRow.day), TryGrantStarter(db, config, i, caseRow);
            var before, tokens := db.incense[k], config.starterIncenseCount * caseRow.tokenPerIncense;
            if GiftDue(db, config, i, caseRow.day)
            then after == db.(incense := db.incense[k := before.(claimed := before.claimed + tokens, starter := before.starter + tokens)],
                              grants := db.grants[(db.identities[i].fingerprint, caseRow.day) := Grant(i, tokens)])
            else after == db && after.incense == db.incense[k := before]
  {
    assert db.incense[(i, caseRow.day) := db.incense[(i, caseRow.day)]] == db.incense;
  }

  lemma MoreSticksRemain(row: IncenseRow, sticks: nat)
    requires BalanceOk(row)
    ensures var tokens := sticks * row.tokenPerIncense;
            RemainingOf(row.(claimed := row.claimed + tokens, starter := row.starter + tokens)) == RemainingOf(row) + sticks
  {
    var rate := row.tokenPerIncense;
    AffordabilityAgrees(row.claimed, row.used, rate, 0);
    SticksAdd(row.claimed, sticks, rate);
  }

  lemma SticksAdd(tokens: nat, sticks: nat, rate: nat)
    requires rate > 0
    ensures (tokens + sticks * rate) / rate == tokens / rate + sticks
  {
    var q := tokens / rate + sticks;
    assert q * rate == (tokens / rate) * rate + sticks * rate;
    assert (q + 1) * rate == q * rate + rate;
    QuotientReaches(tokens + sticks * rate, rate, q);
    QuotientReaches(tokens + sticks * rate, rate, q + 1);
  }

  // ----- claims -----

  /** What a claim may leave: no more than was asked, in one jump of at most the ceiling when there is one. */
  predicate ClaimAllows(claimed: nat, requested: nat, ceiling: nat, n: nat) {
    n <= requested && (ceiling > 0 ==> n - claimed <= ceiling)
  }

  ghost predicate LargestClaim(claimed: nat, requested: nat, ceiling: nat, n: nat) {
    ClaimAllows(claimed, requested, ceiling, n) && forall more :: more > n ==> !ClaimAllows(claimed, requested, ceiling, more)
  }

  /** A claim for another date touches nothing; one at or below the row leaves it; any other leaves the largest number allowed
      in the row, says so when that is less than was asked, and touches nothing else. */
  lemma ClaimExactly(db: Db, config: Config, i: InstallationId, caseRow: CaseRow, claimDay: Day, requested: nat)
    ensures var k, ceiling := (i, caseRow.day), config.absurdClaimTokens;
            var ready := EnsureRow(db, config, i, caseRow);
            var (after, outcome) := ApplyTokenClaim(db, config, i, caseRow, claimDay, requested);
            && k in ready.incense
            && var claimed := ready.incense[k].claimed;
            && (outcome.WrongDate? <==> claimDay != caseRow.day)
            && (outcome.BelowWatermark? <==> claimDay == caseRow.day && requested <= claimed)
            && (outcome.WrongDate? ==> after == db) && (outcome.BelowWatermark? ==> after == ready)
            && (outcome.Applied? ==>
                  && k in after.incense
                  && var left := after.incense[k].claimed;
                  && after == ready.(incense := ready.incense[k := ready.incense[k].(claimed := left)])
                  && LargestClaim(claimed, requested, ceiling, left)
                  && (left == requested <==> ceiling == 0 || requested - claimed <= ceiling)
                  && (outcome.capped <==> ceiling > 0 && requested - claimed > ceiling))
  {
    hide EnsureRow, LargestClaim, ClaimTarget;
    EnsureRowFrame(db, config, i, caseRow);
    var ready := EnsureRow(db, config, i, caseRow);
    var claimed := ready.incense[(i, caseRow.day)].claimed;
    if requested > claimed {
      TargetIsLargest(claimed, requested, config.absurdClaimTokens);
    }
  }

  lemma TargetIsLargest(claimed: nat, requested: nat, ceiling: nat)
    requires requested > claimed
    ensures var target := ClaimTarget(claimed, requested, ceiling);
            LargestClaim(claimed, requested, ceiling, target) && target > claimed
            && (target == requested <==> ceiling == 0 || requested - claimed <= ceiling)
  {
  }

  // ----- votes -----

  /** A fresh vote on the open case leaves its receipt under its own payload. A refused one leaves no more than that and the row
      its first contact made; an accepted one adds one ledger row that states the request, what was taken of it, the counters
      after it and its time, and no row or case of anybody else changes. */
  lemma FreshVoteLeaves(db: Db, config: Config, i: InstallationId, intent: Intent, active: CaseRow, now: int, maxSpend: Limit, today: Day)
    requires Consistent(db, today) && (i, intent.requestId) !in db.receipts
    requires intent.caseId == active.id && active.id in db.cases
    requires db.cases[active.id].active && db.cases[active.id].day == active.day
    ensures var k, key := (i, active.day), (i, intent.requestId);
            var ready := EnsureRow(db, config, i, db.cases[active.id]);
            var (after, r) := Vote(db, config, i, intent, active, now, maxSpend);
            && key in after.receipts
            && after.receipts == db.receipts[key := Receipt(active.id, active.day, intent.direction, intent.count, after.receipts[key].disposition)]
            && (r.Rejected? ==>
                  && after == ready.(receipts := after.receipts)
                  && after.receipts[key].disposition == RejectedOnce(InsufficientIncense, NO_INCENSE))
            && (r.Accepted? ==>
                  && after.receipts[key].disposition == AcceptedOnce
                  && after.votes == db.votes + [VoteRow(i, intent.requestId, active.id, active.day, intent.direction, intent.count, r.accepted,
                                                        UsedFor(after, i, active.day), RemainingFor(after, i, active.day), now)]
                  && after == ready.(incense := after.incense, votes := after.votes, receipts := after.receipts, stats := after.stats,
                                     snapshots := after.snapshots)
                  && after.incense.Keys == ready.incense.Keys
                  && (forall j :: j in ready.incense && j != k ==> after.incense[j] == ready.incense[j])
                  && (forall c :: c != active.id ==> KeepsCounts(ready, after, c)))
  {
    hide EnsureRow, AcceptVote, CasesOk, StatsOk, VotesOk, ReceiptsOk, IncenseOk, UsedOk, Recount, PublishedOk, CanSpend, ClampedSpend,
         RemainingFor, UsedFor, KeepsCounts;
    var caseRow := db.cases[active.id];
    var ready := EnsureRow(db, config, i, caseRow);
    CaseHasRate(db.cases, active.id);
    EnsureRowKeepsConsistent(db, config, i, caseRow, today);
    var spent := ClampedSpend(ready, i, intent, active.day, maxSpend);
    ClampedSpendIsAffordable(db, config, i, intent, caseRow, maxSpend);
    if spent >= 1 {
      AggregatesExist(ready.cases, ready.stats, ready.snapshots, ready.votes, active.id);
      AcceptedLeaves(ready, i, intent, active, spent, now);
    }
  }

  lemma AcceptedLeaves(db: Db, i: InstallationId, intent: Intent, active: CaseRow, spent: nat, now: int)
    requires intent.caseId == active.id && active.id in db.stats && active.id in db.snapshots && CanSpend(db, i, active.day, spent)
    requires IncenseOk(db.incense)
    ensures var k, key := (i, active.day), (i, intent.requestId);
            var after := AcceptVote(db, i, intent, active, spent, now);
            && after.receipts == db.receipts[key := Receipt(active.id, active.day, intent.direction, intent.count, AcceptedOnce)]
            && after.votes == db.votes + [VoteRow(i, intent.requestId, active.id, active.day, intent.direction, intent.count, spent,
                                                  UsedFor(after, i, active.day), RemainingFor(after, i, active.day), now)]
            && after == db.(incense := after.incense, votes := after.votes, receipts := after.receipts, stats := after.stats,
                            snapshots := after.snapshots)
            && after.incense.Keys == db.incense.Keys
            && (forall j :: j in db.incense && j != k ==> after.incense[j] == db.incense[j])
            && (forall c :: c != active.id ==> KeepsCounts(db, after, c))
  {
    hide AcceptVote, IncenseOk, Voters, BumpStats, Newer, LatestSequence, RemainingFor, RemainingOf;
    AcceptedTables(db, i, intent, active, spent, now);
    AcceptedBalance(db, i, intent, active, spent, now);
  }

  predicate KeepsCounts(db: Db, after: Db, c: CaseId) {
    StatsFor(after, c) == StatsFor(db, c) && SnapshotsOf(after, c) == SnapshotsOf(db, c)
  }

  // ----- opening cases -----

  /** One case is new, under the rate of the configuration, open, without votes, and stamped; no other case is opened. */
  predicate OpensFresh(db: Db, after: Db, config: Config, id: CaseId, title: string, day: Day, now: int) {
    && id !in db.cases && after.cases.Keys == db.cases.Keys + {id}
    && after.cases[id] == CaseRow(id, day, title, true, config.tokenPerIncense, now)
    && id in after.stats && after.stats[id] == StatsRow(0, 0, 0)
    && id in after.snapshots && after.snapshots[id] == [SnapshotRow(1, 0, 0, 0, now)]
    && (forall c :: c in db.cases ==> after.cases[c] == db.cases[c].(active := after.cases[c].active) && (after.cases[c].active ==> db.cases[c].active))
  }

  /** Of the cases there were, exactly those that a rotation's date has passed are closed. */
  predicate ClosesOnlyBefore(cases: Cases, after: Cases, day: Day) {
    forall c :: c in cases ==> c in after && after[c] == cases[c].(active := cases[c].active && cases[c].day >= day)
  }

  /** A rotation closes exactly the cases of earlier dates, and opens one unless today's is open; balances, votes and receipts
      stay. */
  lemma RotationExactly(db: Db, config: Config, periods: Periods, id: CaseId, title: string, day: Day, now: int)
    ensures var r := Rotate(db, config, periods, id, title, day, now);
            && (r.None? <==> id in db.cases && !HasActive(db, day))
            && (r.Some? ==>
                  && ClosesOnlyBefore(db.cases, r.value.cases, day)
                  && r.value == db.(cases := r.value.cases, stats := r.value.stats, snapshots := r.value.snapshots, archive := r.value.archive)
                  && if HasActive(db, day)
                     then r.value.cases.Keys == db.cases.Keys && r.value.stats == db.stats && r.value.snapshots == db.snapshots
                     else OpensFresh(db, r.value, config, id, title, day, now))
  {
    hide Finalize, HasActive, CloseCasesBefore, OpenCase, OpensFresh, ClosesOnlyBefore;
    var closed := CloseCasesBefore(db, day);
    var sealed := closed.(archive := Finalize(closed, periods, day));
    ClosedBefore(db, day);
    CloseLaterOpen(db, day);
    ArchiveApart(closed, sealed.archive, day);
    if !HasActive(db, day) && id !in db.cases {
      OpenedFresh(db, sealed, config, id, title, day, now);
      OpeningCloses(db, sealed, NewCase(id, day, title, config, now), day, now);
    }
  }

  lemma ClosedBefore(db: Db, day: Day)
    ensures var after := CloseCasesBefore(db, day);
            after == db.(cases := after.cases) && after.cases.Keys == db.cases.Keys && ClosesOnlyBefore(db.cases, after.cases, day)
  {
  }

  lemma OpeningCloses(db: Db, closed: Db, row: CaseRow, day: Day, now: int)
    requires ClosesOnlyBefore(db.cases, closed.cases, day) && row.id !in db.cases
    ensures ClosesOnlyBefore(db.cases, OpenCase(closed, row, now).cases, day)
  {
  }

  /** A case opened after others were closed. */
  lemma OpenedFresh(db: Db, closed: Db, config: Config, id: CaseId, title: string, day: Day, now: int)
    requires id !in db.cases && closed.cases.Keys == db.cases.Keys
    requires forall c :: c in db.cases ==> closed.cases[c] == db.cases[c].(active := closed.cases[c].active) && (closed.cases[c].active ==> db.cases[c].active)
    ensures var after := OpenCase(closed, NewCase(id, day, title, config, now), now);
            && OpensFresh(db, after, config, id, title, day, now)
            && after == closed.(cases := after.cases, stats := after.stats, snapshots := after.snapshots)
            && forall c :: c in db.cases ==> after.cases[c] == closed.cases[c]
  {
  }

  /** A publish fails exactly when its id is taken. Otherwise exactly the cases of its date and before are closed, the new one is
      open, and exactly the used sticks of its date are cleared; votes, receipts and sealed rows stay. */
  lemma PublishExactly(db: Db, config: Config, id: CaseId, title: string, day: Day, now: int)
    ensures var r := PublishCase(db, config, id, title, day, now);
            && (r.None? <==> id in db.cases)
            && (r.Some? ==>
                  && OpensFresh(db, r.value, config, id, title, day, now)
                  && (forall c :: c in db.cases ==> (r.value.cases[c].active <==> db.cases[c].active && db.cases[c].day > day))
                  && ClearsUsed(db.incense, r.value.incense, day)
                  && r.value == db.(cases := r.value.cases, stats := r.value.stats, snapshots := r.value.snapshots,
                                    incense := r.value.incense))
  {
    hide HasActive, OpenCase, NewCase, OpensFresh, CloseCasesBefore, CloseActiveFor, ResetUsedFor, ClearsUsed;
    var closed := CloseCasesBefore(db, day);
    var over := if HasActive(closed, day) then CloseActiveFor(closed, day) else closed;
    ClosedThrough(db, day);
    ClearedExactly(over, day);
    if id !in db.cases {
      OpenedFresh(db, ResetUsedFor(over, day), config, id, title, day, now);
    }
  }

  lemma ClosedThrough(db: Db, day: Day)
    ensures var closed := CloseCasesBefore(db, day);
            var over := if HasActive(closed, day) then CloseActiveFor(closed, day) else closed;
            && over == db.(cases := over.cases) && over.cases.Keys == db.cases.Keys
            && forall c :: c in db.cases ==> over.cases[c] == db.cases[c].(active := db.cases[c].active && db.cases[c].day > day)
  {
    hide HasActive;
    NotActiveIsNone(CloseCasesBefore(db, day), day);
  }

  predicate ClearsUsed(incense: Incense, after: Incense, day: Day) {
    after.Keys == incense.Keys
    && forall k :: k in incense ==> after[k] == incense[k].(used := if k.1 == day then 0 else incense[k].used)
  }

  lemma ClearedExactly(db: Db, day: Day)
    ensures var after := ResetUsedFor(db, day); after == db.(incense := after.incense) && ClearsUsed(db.incense, after.incense, day)
  {
  }

  // ----- wiping a date -----

  predicate StartsOver(db: Db, c: CaseId, now: int) {
    && c in db.stats && db.stats[c] == StatsRow(0, 0, 0) && c in db.snapshots && db.snapshots[c] == [SnapshotRow(1, 0, 0, 0, now)]
  }

  /** A reset is refused exactly without an open case. Otherwise it deletes exactly the date's votes, receipts and closed cases,
      clears exactly what was used on it, and starts its open case over; everything of other dates, every claim and every sealed
      row stays. */
  lemma ResetExactly(db: Db, day: Day, now: int)
    ensures var r := ResetToday(db, day, now);
            && (r.Some? <==> HasActive(db, day))
            && (r.Some? ==>
                  && (forall v :: v in r.value.votes <==> v in db.votes && v.day != day)
                  && (forall k :: k in r.value.receipts <==> k in db.receipts && db.receipts[k].day != day)
                  && (forall k :: k in r.value.receipts ==> r.value.receipts[k] == db.receipts[k])
                  && (forall c :: c in r.value.cases <==> c in db.cases && (db.cases[c].day != day || db.cases[c].active))
                  && (forall c :: c in r.value.cases ==> r.value.cases[c] == db.cases[c])
                  && (forall c :: c in r.value.cases ==>
                        if db.cases[c].day == day then StartsOver(r.value, c, now) else KeepsCounts(db, r.value, c))
                  && ClearsUsed(db.incense, r.value.incense, day)
                  && r.value == db.(votes := r.value.votes, receipts := r.value.receipts, cases := r.value.cases, stats := r.value.stats,
                                    snapshots := r.value.snapshots, incense := r.value.incense))
  {
    hide HasActive;
    ClearedExactly(WipeVotes(db, day, now), day);
  }
}
