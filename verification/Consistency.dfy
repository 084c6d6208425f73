/** What the tables say about each other in every reachable state. Each predicate names exactly the tables it reads. */
module Consistency {
  import opened Common
  import opened Ledger
  import opened VoteBudget
  import opened Database
  import opened Archive
  import opened Authority

  type Cases = map<CaseId, CaseRow>
  type Incense = map<(InstallationId, Day), IncenseRow>
  type Receipts = map<(InstallationId, RequestId), Receipt>

  /** Rows under their own ids, and the partial unique index: one active case per date. */
  predicate CasesOk(cases: Cases) {
    && (forall c :: c in cases ==> cases[c].id == c && cases[c].tokenPerIncense > 0)
    && (forall a, b :: a in cases && b in cases && cases[a].active && cases[b].active && cases[a].day == cases[b].day ==> a == b)
  }

  /** The aggregate of a case, recounted from the ledger. */
  function Recount(votes: seq<VoteRow>, c: CaseId): StatsRow {
    StatsRow(Total(votes, OnCase(c, Up)), Total(votes, OnCase(c, Down)), |Voters(votes, OfCase(c))|)
  }

  predicate StatsOk(cases: Cases, stats: map<CaseId, StatsRow>, votes: seq<VoteRow>) {
    stats.Keys == cases.Keys && forall c :: c in cases ==> stats[c] == Recount(votes, c)
  }

  predicate Proves(receipt: Receipt, v: VoteRow) {
    receipt.disposition.AcceptedOnce? && receipt.caseId == v.caseId && receipt.direction == v.direction
    && receipt.requestedCount == v.requestedCount && receipt.day == v.day
  }

  /** Every vote has its case, its balance row and its accepted receipt, and its UNIQUE key. */
  predicate VoteOk(cases: Cases, incense: Incense, receipts: Receipts, v: VoteRow) {
    && v.caseId in cases && cases[v.caseId].day == v.day
    && (v.installationId, v.day) in incense
    && (v.installationId, v.requestId) in receipts && Proves(receipts[(v.installationId, v.requestId)], v)
    && 1 <= v.accepted <= v.requestedCount && v.accepted <= VOTE_COUNT_MAX
  }

  predicate VotesOk(cases: Cases, incense: Incense, receipts: Receipts, votes: seq<VoteRow>) {
    KeysUnique(votes) && forall v :: v in votes ==> VoteOk(cases, incense, receipts, v)
  }

  /** Every accepted receipt has its ledger row, and every rejected one a message. */
  predicate ReceiptsOk(receipts: Receipts, votes: seq<VoteRow>) {
    && (forall k :: k in receipts && receipts[k].disposition.AcceptedOnce? ==> FindVote(votes, k.0, k.1).Some?)
    && (forall k :: k in receipts && receipts[k].disposition.RejectedOnce? ==> receipts[k].disposition.message != "")
  }

  /** The table CHECK, and a gift that is part of the claim. */
  predicate BalanceOk(row: IncenseRow) {
    row.tokenPerIncense > 0 && row.used * row.tokenPerIncense <= row.claimed && row.starter <= row.claimed
  }

  predicate IncenseOk(incense: Incense) {
    forall k :: k in incense ==> BalanceOk(incense[k])
  }

  /** What an installation has used on a date is what it had accepted on the date's active case; with no active case
      (a date not yet opened) it is nothing. */
  predicate UsedOk(cases: Cases, incense: Incense, votes: seq<VoteRow>, today: Day) {
    forall k :: k in incense ==>
      && (forall c :: c in cases && cases[c].active && cases[c].day == k.1 ==> incense[k].used == Total(votes, ByOn(k.0, c)))
      && (k.1 >= today && (forall c :: c in cases && cases[c].active ==> cases[c].day != k.1) ==> incense[k].used == 0)
  }

  /** Sequences without gaps. */
  predicate Contiguous(rows: seq<SnapshotRow>) {
    forall k :: 0 <= k < |rows| ==> rows[k].sequence == rows[0].sequence + k
  }

  /** Every snapshot since the first, or the newest 200 of them; the newest states the aggregate. */
  predicate PublishedOk(rows: seq<SnapshotRow>, stats: StatsRow) {
    && 1 <= |rows| <= SNAPSHOT_HISTORY_LIMIT && rows[0].sequence >= 1 && Contiguous(rows)
    && (rows[0].sequence == 1 || |rows| == SNAPSHOT_HISTORY_LIMIT)
    && var latest := rows[|rows| - 1]; StatsRow(latest.up, latest.down, latest.uniqueVoters) == stats
  }

  predicate SnapshotsOk(stats: map<CaseId, StatsRow>, snapshots: map<CaseId, seq<SnapshotRow>>) {
    snapshots.Keys == stats.Keys && forall c :: c in stats ==> PublishedOk(snapshots[c], stats[c])
  }

  /** The invariant of the database, at the latest business date a rotation has seen. */
  predicate Consistent(db: Db, today: Day) {
    && CasesOk(db.cases) && StatsOk(db.cases, db.stats, db.votes)
    && VotesOk(db.cases, db.incense, db.receipts, db.votes) && ReceiptsOk(db.receipts, db.votes)
    && IncenseOk(db.incense) && UsedOk(db.cases, db.incense, db.votes, today)
    && SnapshotsOk(db.stats, db.snapshots)
  }

  lemma ConsistentLedger(db: Db, today: Day)
    requires Consistent(db, today)
    ensures LedgerAgrees(db)
  {
  }

  // ----- snapshots -----

  /** A first row that is too old goes, and the newer rest stays. */
  lemma {:induction false} NewerDropsFirst(row: SnapshotRow, rows: seq<SnapshotRow>, than: int)
    requires row.sequence <= than && forall r :: r in rows ==> r.sequence > than
    ensures Newer([row] + rows, than) == rows
    decreases |rows|
  {
    if rows == [] {
      assert [row] + rows == [row] && [row][..0] == [];
      assert Newer([row][..0], than) == [];
    } else {
      NewerDropsFirst(row, rows[..|rows| - 1], than);
      assert ([row] + rows)[..|rows|] == [row] + rows[..|rows| - 1];
    }
  }

  lemma {:induction false} NewerNone(rows: seq<SnapshotRow>, than: int)
    requires forall r :: r in rows ==> r.sequence <= than
    ensures Newer(rows, than) == []
  {
    if rows != [] {
      NewerNone(rows[..|rows| - 1], than);
    }
  }

  lemma {:induction false} NewerAll(rows: seq<SnapshotRow>, than: int)
    requires forall r :: r in rows ==> r.sequence > than
    ensures Newer(rows, than) == rows
  {
    if rows != [] {
      NewerAll(rows[..|rows| - 1], than);
    }
  }

  /** Publishing appends the aggregate under the next sequence; pruning keeps the newest 200 without a gap. */
  lemma PublishKeepsSnapshot(rows: seq<SnapshotRow>, before: StatsRow, stats: StatsRow, now: int)
    requires PublishedOk(rows, before)
    ensures var next := SnapshotRow(LatestSequence(rows) + 1, stats.up, stats.down, stats.uniqueVoters, now);
            var appended := rows + [next];
            var kept := Newer(appended, LatestSequence(appended) - SNAPSHOT_HISTORY_LIMIT);
            && PublishedOk(kept, stats) && kept[|kept| - 1] == next
            && kept == if |appended| <= SNAPSHOT_HISTORY_LIMIT then appended else appended[1..]
  {
    hide Newer;
    var next := SnapshotRow(LatestSequence(rows) + 1, stats.up, stats.down, stats.uniqueVoters, now);
    var appended := rows + [next];
    assert Contiguous(appended);
    var than := LatestSequence(appended) - SNAPSHOT_HISTORY_LIMIT;
    if |appended| <= SNAPSHOT_HISTORY_LIMIT {
      NewerAll(appended, than);
    } else {
      assert appended == [appended[0]] + appended[1..];
      NewerDropsFirst(appended[0], appended[1..], than);
    }
  }

  // ----- one accepted vote -----

  lemma RecountAppend(votes: seq<VoteRow>, v: VoteRow, c: CaseId)
    ensures Recount(votes + [v], c)
         == if c == v.caseId
            then BumpStats(Recount(votes, c), v.direction, v.accepted, v.installationId !in Voters(votes, OfCase(c)))
            else Recount(votes, c)
  {
    hide Voters;
    TotalAppend(votes, v, OnCase(c, Up));
    TotalAppend(votes, v, OnCase(c, Down));
    VotersAppend(votes, v, OfCase(c));
    var voters := Voters(votes, OfCase(c));
    if v.installationId in voters {
      assert voters + {v.installationId} == voters;
    }
  }

  lemma StatsAfterVote(cases: Cases, stats: map<CaseId, StatsRow>, votes: seq<VoteRow>, v: VoteRow)
    requires StatsOk(cases, stats, votes) && v.caseId in cases
    ensures var bumped := BumpStats(stats[v.caseId], v.direction, v.accepted, v.installationId !in Voters(votes, OfCase(v.caseId)));
            StatsOk(cases, stats[v.caseId := bumped], votes + [v])
  {
    hide Recount, BumpStats, Voters;
    forall c | c in cases
      ensures Recount(votes + [v], c)
           == if c == v.caseId
              then BumpStats(stats[c], v.direction, v.accepted, v.installationId !in Voters(votes, OfCase(c)))
              else stats[c]
    {
      RecountAppend(votes, v, c);
    }
  }

  lemma FindAppended(votes: seq<VoteRow>, v: VoteRow, i: InstallationId, request: RequestId)
    ensures FindVote(votes + [v], i, request)
         == if v.installationId == i && v.requestId == request then Option.Some(v) else FindVote(votes, i, request)
  {
    assert (votes + [v])[..|votes|] == votes;
  }

  lemma VotesAfterVote(cases: Cases, incense: Incense, paid: Incense, receipts: Receipts, votes: seq<VoteRow>, v: VoteRow, receipt: Receipt)
    requires VotesOk(cases, incense, receipts, votes) && ReceiptsOk(receipts, votes)
    requires incense.Keys <= paid.Keys && Proves(receipt, v)
    requires (v.installationId, v.requestId) !in receipts
    requires VoteOk(cases, paid, receipts[(v.installationId, v.requestId) := receipt], v)
    ensures var after := receipts[(v.installationId, v.requestId) := receipt];
            VotesOk(cases, paid, after, votes + [v]) && ReceiptsOk(after, votes + [v])
  {
    var after := receipts[(v.installationId, v.requestId) := receipt];
    forall u | u in votes ensures VoteOk(cases, paid, after, u) && !(u.installationId == v.installationId && u.requestId == v.requestId) {
      assert VoteOk(cases, incense, receipts, u);
    }
    forall k | k in after && after[k].disposition.AcceptedOnce? ensures FindVote(votes + [v], k.0, k.1).Some? {
      FindAppended(votes, v, k.0, k.1);
    }
  }

  lemma UsedAfterVote(cases: Cases, incense: Incense, votes: seq<VoteRow>, v: VoteRow, today: Day)
    requires CasesOk(cases) && UsedOk(cases, incense, votes, today)
    requires v.caseId in cases && cases[v.caseId].active && cases[v.caseId].day == v.day
    requires (v.installationId, v.day) in incense
    ensures var k := (v.installationId, v.day);
            UsedOk(cases, incense[k := incense[k].(used := incense[k].used + v.accepted)], votes + [v], today)
  {
    var key := (v.installationId, v.day);
    var paid := incense[key := incense[key].(used := incense[key].used + v.accepted)];
    forall k, c | k in paid && c in cases && cases[c].active && cases[c].day == k.1
      ensures paid[k].used == Total(votes + [v], ByOn(k.0, c))
    {
      TotalAppend(votes, v, ByOn(k.0, c));
    }
  }

  // ----- balance rows -----

  /** Same rows or one more, with the same sticks used and every CHECK kept. */
  predicate OnlyAdds(incense: Incense, after: Incense, key: (InstallationId, Day)) {
    && after.Keys == incense.Keys + {key} && IncenseOk(after)
    && (forall k :: k in incense ==> after[k].used == incense[k].used)
    && (key !in incense ==> after[key].used == 0)
  }

  lemma EnsureIncenseRowOnlyAdds(db: Db, i: InstallationId, day: Day, tokenPerIncense: nat)
    requires IncenseOk(db.incense) && tokenPerIncense > 0
    ensures var after := EnsureIncenseRow(db, i, day, tokenPerIncense);
            after == db.(incense := after.incense) && OnlyAdds(db.incense, after.incense, (i, day))
  {
    var key := (i, day);
    var after := EnsureIncenseRow(db, i, day, tokenPerIncense).incense;
    assert after.Keys == db.incense.Keys + {key};
    forall k | k in after ensures BalanceOk(after[k]) {
      if k in db.incense {
        assert BalanceOk(db.incense[k]);
      }
    }
  }

  lemma TryGrantStarterOnlyAdds(db: Db, config: Config, i: InstallationId, caseRow: CaseRow)
    requires IncenseOk(db.incense) && (i, caseRow.day) in db.incense
    ensures var after := TryGrantStarter(db, config, i, caseRow);
            after == db.(incense := after.incense, grants := after.grants)
            && OnlyAdds(db.incense, after.incense, (i, caseRow.day))
  {
    var key := (i, caseRow.day);
    var after := TryGrantStarter(db, config, i, caseRow).incense;
    assert BalanceOk(db.incense[key]);
    assert BalanceOk(after[key]);
    assert after.Keys == db.incense.Keys + {key};
    forall k | k in after ensures BalanceOk(after[k]) {
      if k != key {
        assert BalanceOk(db.incense[k]);
      }
    }
  }

  /** Making sure of a balance row adds at most that row, spends nothing, and keeps every row's CHECK. */
  lemma EnsureRowOnlyAdds(db: Db, config: Config, i: InstallationId, caseRow: CaseRow)
    requires IncenseOk(db.incense) && caseRow.tokenPerIncense > 0
    ensures var after := EnsureRow(db, config, i, caseRow);
            after == db.(incense := after.incense, grants := after.grants)
            && OnlyAdds(db.incense, after.incense, (i, caseRow.day))
  {
    hide EnsureIncenseRow, TryGrantStarter, IncenseOk;
    EnsureIncenseRowOnlyAdds(db, i, caseRow.day, caseRow.tokenPerIncense);
    TryGrantStarterOnlyAdds(EnsureIncenseRow(db, i, caseRow.day, caseRow.tokenPerIncense), config, i, caseRow);
  }

  lemma EnsureRowKeepsConsistent(db: Db, config: Config, i: InstallationId, caseRow: CaseRow, today: Day)
    requires Consistent(db, today) && caseRow.tokenPerIncense > 0
    ensures var after := EnsureRow(db, config, i, caseRow);
            && after == db.(incense := after.incense, grants := after.grants)
            && Consistent(after, today)
            && (i, caseRow.day) in after.incense
  {
    hide EnsureRow, CasesOk, StatsOk, VotesOk, ReceiptsOk, IncenseOk, UsedOk, SnapshotsOk;
    var after := EnsureRow(db, config, i, caseRow);
    EnsureRowOnlyAdds(db, config, i, caseRow);
    NewRowUnused(db.cases, db.incense, after.incense, db.receipts, db.votes, i, caseRow.day, today);
    VotesKeepRows(db.cases, db.incense, after.incense, db.receipts, db.votes);
  }

  lemma VotesKeepRows(cases: Cases, incense: Incense, after: Incense, receipts: Receipts, votes: seq<VoteRow>)
    requires VotesOk(cases, incense, receipts, votes) && incense.Keys <= after.Keys
    ensures VotesOk(cases, after, receipts, votes)
  {
    forall v | v in votes ensures VoteOk(cases, after, receipts, v) {
      assert VoteOk(cases, incense, receipts, v);
    }
  }

  /** An installation without a balance row for a date has no votes on it, so a fresh row starts in agreement. */
  lemma NewRowUnused(cases: Cases, incense: Incense, after: Incense, receipts: Receipts, votes: seq<VoteRow>,
                     i: InstallationId, day: Day, today: Day)
    requires UsedOk(cases, incense, votes, today) && VotesOk(cases, incense, receipts, votes)
    requires after.Keys == incense.Keys + {(i, day)}
    requires forall k :: k in incense ==> after[k].used == incense[k].used
    requires (i, day) !in incense ==> after[(i, day)].used == 0
    ensures UsedOk(cases, after, votes, today)
  {
    if (i, day) !in incense {
      forall c | c in cases && cases[c].day == day ensures Total(votes, ByOn(i, c)) == 0 {
        forall v | v in votes ensures !ByOn(i, c)(v) {
          assert VoteOk(cases, incense, receipts, v);
        }
        TotalNone(votes, ByOn(i, c));
      }
    }
  }

  // ----- closing cases -----

  predicate OnlyCloses(cases: Cases, after: Cases) {
    after.Keys == cases.Keys && forall c :: c in cases ==> after[c] == cases[c] || after[c] == cases[c].(active := false)
  }

  lemma CloseKeepsVotes(cases: Cases, after: Cases, incense: Incense, receipts: Receipts, votes: seq<VoteRow>)
    requires VotesOk(cases, incense, receipts, votes) && OnlyCloses(cases, after)
    ensures VotesOk(after, incense, receipts, votes)
  {
    forall v | v in votes ensures VoteOk(after, incense, receipts, v) {
      assert VoteOk(cases, incense, receipts, v);
    }
  }

  lemma CloseKeepsUsed(cases: Cases, after: Cases, incense: Incense, votes: seq<VoteRow>, today: Day, later: Day)
    requires UsedOk(cases, incense, votes, today) && OnlyCloses(cases, after) && today <= later
    requires forall c :: c in cases && cases[c].day >= later ==> after[c] == cases[c]
    ensures UsedOk(after, incense, votes, later)
  {
    forall k | k in incense && k.1 >= later && forall c :: c in after && after[c].active ==> after[c].day != k.1
      ensures incense[k].used == 0
    {
      forall c | c in cases && cases[c].active ensures cases[c].day != k.1 {
        assert c in after;
      }
    }
  }

  lemma CloseKeepsCases(cases: Cases, after: Cases, stats: map<CaseId, StatsRow>, votes: seq<VoteRow>)
    requires CasesOk(cases) && StatsOk(cases, stats, votes) && OnlyCloses(cases, after)
    ensures CasesOk(after) && StatsOk(after, stats, votes)
  {
    hide Recount;
  }

  /** Closing cases keeps everything, provided no date from today on loses its only active case. */
  lemma ClosingKeepsConsistent(db: Db, after: Cases, today: Day, later: Day)
    requires Consistent(db, today) && OnlyCloses(db.cases, after) && today <= later
    requires forall c :: c in db.cases && db.cases[c].day >= later ==> after[c] == db.cases[c]
    ensures Consistent(db.(cases := after), later)
  {
    hide CasesOk, StatsOk, VotesOk, ReceiptsOk, IncenseOk, UsedOk, SnapshotsOk;
    CloseKeepsVotes(db.cases, after, db.incense, db.receipts, db.votes);
    CloseKeepsUsed(db.cases, after, db.incense, db.votes, today, later);
    CloseKeepsCases(db.cases, after, db.stats, db.votes);
  }

  // ----- opening a case -----

  /** Nobody has used anything on a date. */
  predicate Unused(incense: Incense, day: Day) {
    forall k :: k in incense && k.1 == day ==> incense[k].used == 0
  }

  predicate NoneActive(cases: Cases, day: Day) {
    forall c :: c in cases && cases[c].active ==> cases[c].day != day
  }

  lemma OpenKeepsVotes(cases: Cases, row: CaseRow, incense: Incense, receipts: Receipts, votes: seq<VoteRow>)
    requires VotesOk(cases, incense, receipts, votes) && row.id !in cases
    ensures VotesOk(cases[row.id := row], incense, receipts, votes)
    ensures forall v :: v in votes ==> v.caseId != row.id
  {
    forall v | v in votes ensures VoteOk(cases[row.id := row], incense, receipts, v) && v.caseId != row.id {
      assert VoteOk(cases, incense, receipts, v);
    }
  }

  lemma OpenKeepsStats(cases: Cases, row: CaseRow, stats: map<CaseId, StatsRow>, votes: seq<VoteRow>)
    requires StatsOk(cases, stats, votes) && row.id !in cases
    requires forall v :: v in votes ==> v.caseId != row.id
    ensures StatsOk(cases[row.id := row], stats[row.id := StatsRow(0, 0, 0)], votes)
  {
    hide Recount;
    NoVotesYet(votes, row.id);
  }

  lemma NoVotesYet(votes: seq<VoteRow>, c: CaseId)
    requires forall v :: v in votes ==> v.caseId != c
    ensures Recount(votes, c) == StatsRow(0, 0, 0)
  {
    TotalNone(votes, OnCase(c, Up));
    TotalNone(votes, OnCase(c, Down));
    assert Voters(votes, OfCase(c)) == {};
  }

  lemma OpenKeepsUsed(cases: Cases, row: CaseRow, incense: Incense, votes: seq<VoteRow>, today: Day)
    requires UsedOk(cases, incense, votes, today) && row.id !in cases && row.active && Unused(incense, row.day)
    requires forall v :: v in votes ==> v.caseId != row.id
    ensures UsedOk(cases[row.id := row], incense, votes, today)
  {
    var after := cases[row.id := row];
    forall k | k in incense ensures Total(votes, ByOn(k.0, row.id)) == 0 {
      TotalNone(votes, ByOn(k.0, row.id));
    }
    forall k | k in incense && k.1 >= today && forall c :: c in after && after[c].active ==> after[c].day != k.1
      ensures incense[k].used == 0
    {
      forall c | c in cases && cases[c].active ensures cases[c].day != k.1 {
        assert c in after && after[c] == cases[c];
      }
    }
  }

  lemma OpenKeepsSnapshots(stats: map<CaseId, StatsRow>, snapshots: map<CaseId, seq<SnapshotRow>>, c: CaseId, now: int)
    requires SnapshotsOk(stats, snapshots)
    ensures SnapshotsOk(stats[c := StatsRow(0, 0, 0)], snapshots[c := [SnapshotRow(1, 0, 0, 0, now)]])
  {
  }

  /** Opening a case under a free id, on a date with no active case and nothing used. */
  lemma OpeningKeepsConsistent(db: Db, row: CaseRow, today: Day, now: int)
    requires Consistent(db, today) && row.id !in db.cases && row.tokenPerIncense > 0 && row.active
    requires NoneActive(db.cases, row.day) && Unused(db.incense, row.day)
    ensures Consistent(OpenCase(db, row, now), today)
  {
    hide StatsOk, VotesOk, ReceiptsOk, IncenseOk, UsedOk, SnapshotsOk;
    OpenKeepsVotes(db.cases, row, db.incense, db.receipts, db.votes);
    OpenKeepsStats(db.cases, row, db.stats, db.votes);
    OpenKeepsUsed(db.cases, row, db.incense, db.votes, today);
    OpenKeepsSnapshots(db.stats, db.snapshots, row.id, now);
  }

  // ----- clearing what was spent on a date -----

  lemma ResetOnlyClears(db: Db, day: Day)
    requires IncenseOk(db.incense)
    ensures var after := ResetUsedFor(db, day);
            && after == db.(incense := after.incense) && after.incense.Keys == db.incense.Keys
            && IncenseOk(after.incense) && Unused(after.incense, day)
            && forall k :: k in db.incense && k.1 != day ==> after.incense[k] == db.incense[k]
  {
    var after := ResetUsedFor(db, day);
    forall k | k in after.incense ensures BalanceOk(after.incense[k]) {
      assert BalanceOk(db.incense[k]);
    }
  }

  /** UsedOk on every date but one. */
  predicate UsedElsewhere(cases: Cases, incense: Incense, votes: seq<VoteRow>, today: Day, day: Day) {
    UsedOk(cases, map k | k in incense && k.1 != day :: incense[k], votes, today)
  }

  predicate NothingOn(cases: Cases, incense: Incense, votes: seq<VoteRow>, day: Day) {
    forall k, c :: k in incense && k.1 == day && c in cases && cases[c].active && cases[c].day == day ==> Total(votes, ByOn(k.0, c)) == 0
  }

  lemma ClearedUsedOk(cases: Cases, incense: Incense, after: Incense, votes: seq<VoteRow>, today: Day, day: Day)
    requires UsedElsewhere(cases, incense, votes, today, day) && NothingOn(cases, incense, votes, day)
    requires after.Keys == incense.Keys && Unused(after, day)
    requires forall k :: k in incense && k.1 != day ==> after[k] == incense[k]
    ensures UsedOk(cases, after, votes, today)
  {
    var others := map k | k in incense && k.1 != day :: incense[k];
    forall k | k in after
      ensures forall c :: c in cases && cases[c].active && cases[c].day == k.1 ==> after[k].used == Total(votes, ByOn(k.0, c))
      ensures k.1 >= today && (forall c :: c in cases && cases[c].active ==> cases[c].day != k.1) ==> after[k].used == 0
    {
      if k.1 != day {
        assert k in others;
      }
    }
  }
}
