# A verified model of the vote and incense authority

This project models the part of the Liangxiang repository that decides who may spend how much incense on which case, and
the host protocols that feed it. It is written in Dafny; `dafny verify dfyconfig.toml` checks all of it.

## What is modelled

**The authority** (`src/backend/service.ts`, `store.ts`, `schema.ts`). `Ledger` holds the accepted votes and the sums and voter
sets taken from them. `Database` holds the other tables as maps and sequences and the guarded SQL statements as updates of one
database value. `Authority` states each transaction as one change of that value: vote, claim, rotate, publish, reset.
`Archive` is the sealing of ended days, weeks and months; `BusinessPeriods` shows that ISO weeks and calendar months are periods
of the kind it needs. `Consistency` says what the tables owe each other, `AuthoritySteps` proves that every transaction keeps it,
`AuthorityEffects` says on the tables alone what each transaction leaves, and `AuthorityRuns` does so for whole runs: any number of processes, any interleaving of their transactions, arbitrarily stale
case rows, business dates that do not go back. `Idempotency`, `StarterGrants` and `VoteResponse` draw consequences.
`CadenceRuns` adds the snapshot cadence, split into its two reads and its insert, to those runs.
`BackendService` is the service object itself: its methods work statement by statement, loop over pending dates, weeks and
months, roll back on refused inserts, and are each proved to make exactly one step of the run model. `VoteEndpoint` is the HTTP
vote handler that joins limiter and service, and `EndpointRuns` follows one process through whole runs of posts. `Admission` is
the ticket and identity desk.

**Vote limits.** `VoteBudget` and `VoteRateLimiter`: a bounded map of buckets with eviction and rebuilding, held below an ideal
bucket that is never forgotten; `VoteOffers` says how many sticks an installation is owed. Levels are counted in sixty-thousandths of a stick, so that a millisecond times the rate per
minute is a whole number.

**Usage and claims on the host.** `IncenseWeight` (glob matcher, weighted scaling), `UsageLedger` and `UsageProjection` (settled
cursors, day totals), `ClaimProtocol` (absolute claims against the ratchet).

**Timed dumps.** `TimedDump` is the protocol as a state machine with a store whose writes may fail or fail after landing, a
network that loses, repeats and delays, crashes and restarts. `TimedDumpSafety` proves what every reachable state keeps,
`TimedDumpSpacing` when the next daytime intent can be created, `TimedDumpIntents` which dump is made and what settings and
waits become,
`DayEndState` the stored form, and `DayEndService` is the service object. `TimedDumpAuthority` says what one vote transaction
settles, and `TimedDumpRuns` runs host and authority together: every delivery of an online dump executes that transaction, between
arbitrary steps of everybody else.

**Archive sync and calendar.** `History` (wire format, validation, merge), `HistorySync` (delta sync against the sealed archive),
`HistoryRuns` (the same beside the authority's runs, an answer being four statements with other processes in between),
`Calendar` (day numbers, business dates, ISO weeks, months), `Liangzi` (tiers and printed percentages).

Time is an input that does not go back. A transaction is one atomic step (`src/backend/store.ts:697-711`). Ids, keys and
fingerprints are opaque. Ratios are exact.

## What does not hold

Where the code does less than one would expect, the model follows the code, and the exact condition is proved.

- A host can claim tokens it never observed (`ClaimProtocol`, three concrete runs). An over-claim is possible in some later run
  whose round trips complete in order exactly when claimed usage and what the host would still add exceed what was observed. After
  a lost reply that is when the claim gained more than the slack, and the next claim averts it exactly by being applied, which
  compares the number to be posted with the server's claim and a pending gift. After an overtaken bootstrap it is when the local
  total reaches beyond the usage the old answer knows, by more than was observed and discarded. After a claim before the first
  bootstrap it is when that claim is posted and refused while claimed usage and local total together exceed what was observed. A
  fresh bootstrap repairs each.
- A request can be credited twice (`UsageLedger`, three concrete runs). From a sound session an event makes a credited request
  creditable again exactly when it is a batch that starts its format anew - after another format, after a lost cursor, or first in
  its process - and a credited request of that format ends past both its start and its end; or a hydration whose stored mark lies
  below a credited request of its format while memory has no cursor of that format or a newer one. A first batch that is live, not
  the catch-up, also credits again itself whatever ends past its first live offset.
- A history answer is read in four statements outside a transaction. When another process seals a row of a table between the
  statement that reads that table and the one that reads the version, the answer carries the new version without the row, and no
  later delta brings it (`HistoryRuns`, one reachable run). The cache stays exact exactly as long as no such answer is merged. An
  answer read on one business date after that date's rotation, and so every answer of a single process, is whole.
- The snapshot cadence reads the aggregate, then the latest snapshot, and inserts in a transaction of its own. A tick whose two
  reads straddle an accepted vote hides that vote from the newest snapshot exactly when the vote is stamped a full refresh interval
  before the tick (`CadenceRuns`, one concrete run; a transaction may wait five seconds for its lock, `src/backend/store.ts:365`,
  and the shortest interval is one second). Insert against any two reads is characterised as well. When stamps lag by less than the
  interval, and in one process always, no tick changes anything.
- A rotation is refused exactly when its case id belongs to an earlier date and no case is open on the new one; ids made from dates
  are never refused.
- `isoWeekFor` numbers the first three days of year 100 wrongly, because `Date.UTC` reads year 99 as 1999; adding business days
  composes only while the intermediate date stays in the years 100 to 9999.
- Two daytime intents of a mode can be created within ten minutes. Another one can follow before a time at most a period away exactly
  when nothing is awaited, the scheduler has looked at today's case of the mode, today's job allows one, and clock, wait and retry
  delay all end before it. Right after a creation that is exactly when its save did not succeed; after an intent that was adopted,
  by its save or by a restart, it is never. Whatever fails, any two daytime intents are five seconds apart, and a run that meets the
  bound is given.
- Relabelling a usage bucket drops a carry left in a destination that holds no whole token yet.
- Responses, archives and stored states pass their own validators exactly when their counts are safe integers.

## Model

| member | source | states |
|---|---|---|
| Calendar.ClosedForm | src/domain/archive.ts:86-94 | the closed form for the first day of a year equals adding up all Gregorian years before it |
| Calendar.OrderPreserved | src/domain/case.ts:14-30 | day numbers order dates exactly as year, month and day do |
| Calendar.CivilRoundTrip | src/domain/archive.ts:86-94 | a date is recovered from its day number |
| Calendar.BusinessDatesAreGregorian | src/domain/case.ts:14-30 | the validator accepts exactly the Gregorian dates of the years 100 to 9999 |
| Calendar.BusinessDaysCompose | src/domain/archive.ts:96-103 | adding business days is additive and invertible exactly while the intermediate date stays a business date |
| Calendar.IsoWeekFor | src/domain/archive.ts:106-133 | the in-place week computation returns the week of the date, and fails exactly on what is not a business date |
| Calendar.WeekFollowsIso | src/domain/archive.ts:106-133 | Monday to Sunday around the date, numbered 1 to 53 as ISO 8601:2004 section 4.1.4 says, exactly outside the first three days of year 100 |
| Calendar.WeekIdIdentifiesWeek | src/domain/archive.ts:106-133 | two dates share a week id exactly when their weeks start on the same Monday |
| Calendar.WeekBoundsAreBusinessDates | src/domain/archive.ts:106-133 | both bounds are business dates exactly outside the weeks touching years 99 and 10000 |
| Calendar.MonthIsWhole | src/domain/archive.ts:135-146 | month bounds are the first and last day of the date's month |
| BusinessPeriods.GregorianPartitions | src/backend/service.ts:244-256 | weeks and months each divide all dates into spans that their dates share |
| BusinessPeriods.SpansAsComputed | src/domain/archive.ts:106-146 | those spans are what isoWeekFor and monthFor return |
| Liangzi.CheckThresholdPolicy | src/domain/liangzi.ts:32-46 | neighbour checks accept exactly 4 or 5 boundaries ascending inside (0,1) |
| Liangzi.BandsPartition | src/domain/liangzi.ts:52-83 | a ratio lies in a state's band exactly when it has the state, so bands cover [0,1] without overlap |
| Liangzi.StatesByName | src/domain/liangzi.ts:5-96 | waiting exactly without votes, and which named state stands for which band of 4 or 5 boundaries |
| Liangzi.PercentOnSameSide | src/domain/presentation.ts:105-126 | printed percents are the exact ones cut off, on the right side of every whole percent, and add up to 100 |
| Liangzi.PercentAgreesWithState | src/domain/presentation.ts:105-126 | the printed percent reaches a boundary exactly when the derived state is at or above its tier, at any precision |
| Liangzi.ShippedPoliciesAreWholePercent | src/domain/liangzi.ts:17-24 | both shipped policies are valid and have whole-percent boundaries |
| IncenseWeight.SplitKeepsMeaning | src/domain/incense-weight.ts:89-102 | splitting at the stars preserves the meaning of a pattern |
| IncenseWeight.LeftmostIsEnough | src/domain/incense-weight.ts:89-102 | taking the leftmost occurrence of the next part never loses a match |
| IncenseWeight.Matches | src/domain/incense-weight.ts:89-102 | the greedy matcher accepts exactly what the pattern's definition by gaps accepts, for any number of stars |
| IncenseWeight.FirstRuleDecides | src/domain/incense-weight.ts:117-129 | the first matching rule gives the weight, with none the fallback does |
| IncenseWeight.FullWeightExactly | src/domain/incense-weight.ts:38-129 | by the shipped rules a model earns in full exactly when its id is well formed, a pro and no flash model; otherwise half |
| IncenseWeight.ScaleIsExact | src/domain/incense-weight.ts:152-163 | scaled tokens and carry account for raw tokens times weight exactly, carry below one token |
| IncenseWeight.NeverAboveRaw | src/domain/incense-weight.ts:152-163 | with weights of at most one no request is credited above its raw size |
| IncenseWeight.SplitAddsUp | src/domain/incense-weight.ts:166-175 | input and output add up to the scaled total, input being its share rounded down; exactly what belongs to no request is dropped |
| UsageLedger.MergeIsSemilattice | src/host/usage-ledger.ts:39-51 | merging marks is commutative, associative on well-formed marks, and idempotent exactly on them |
| UsageLedger.MergeTakes | src/host/usage-ledger.ts:39-51 | no high-water mark falls; of the newest format the furthest cursor is kept with the lowest fence, older formats have no say |
| UsageLedger.FoldKeepsMarks | src/host/usage-ledger.ts:66-88 | an observation raises each mark to the larger of known and seen, and costs the cursor exactly when one moves |
| UsageLedger.CreditIsExact | src/host/usage-ledger.ts:138-159 | one request adds its exact weighted size, input its share rounded down and output the rest, and never more than its raw tokens |
| UsageLedger.CreditAllIsExact | src/host/usage-ledger.ts:138-159 | any sequence of requests adds the exact weighted sum |
| UsageLedger.DayTotalIsFloorOfSum | src/host/usage-ledger.ts:138-159 | a day's total is the floor of the weighted sum whatever the order of requests |
| UsageLedger.CreditSettledUsageBatch | src/host/usage-ledger.ts:162-195 | the loop raises the day's worth by exactly the weighted size of the requests that end past cursor and start past fence, after a catch-up only of those that ended on the date |
| UsageLedger.SettlesExactly | src/host/usage-ledger.ts:162-195 | which fence a batch leaves, which requests are due from it, by how much marks and day rise, and that the cursor moves to the batch's end |
| UsageLedger.StepKeepsSound | src/host/usage-projection.ts:60-88 | one batch, observation, hydration or restart that is orderly in its offsets keeps the cursors in memory and store at or above what they were credited with |
| UsageLedger.CreditedAtMostOnce | src/host/usage-ledger.ts:162-195 | over any run of batches, observations, hydrations and restarts that is orderly in the offsets delivered, from any sound state, no request is credited twice |
| UsageLedger.GrowingCreditsOnce | src/compat/dsh/usage-observer.ts:15-58 | a session log that only grows, migrates upwards and is caught up with first in every process is orderly, by its inputs alone, so none of its requests is credited twice |
| UsageLedger.CursorNeverFalls | src/host/usage-ledger.ts:39-51 | within a format the settled cursor never falls |
| UsageLedger.CreditableExactly | src/host/usage-ledger.ts:170-187 | from any mark and origin a batch can credit an entry exactly when cursor and fence of its own format lie below it and, for a catch-up, some instant falls on the date |
| UsageLedger.ReopensExactly | src/host/usage-ledger.ts:170-180 | a batch that starts its format anew over an existing mark makes a credited request creditable again exactly when the request ends past the batch, and for a catch-up the date has an instant |
| UsageLedger.ExposedExactly | src/host/usage-projection.ts:60-142 | from every sound session, the exact condition on batch, hydration, observation and restart for making a credited request creditable again |
| UsageLedger.StartingEarlierCreditsTwice | src/host/usage-ledger.ts:162-195 | concrete runs, through another format and through a legacy observation, credit one request twice |
| UsageLedger.HydratingBehindCreditsTwice | src/host/usage-projection.ts:60-88 | a concrete run through a hydration with a stored mark behind memory does so too |
| UsageProjection.UsageProjection.Hydrate | src/host/usage-projection.ts:60-88 | each session's mark is hydrated as its own ledger is, stored days are merged into what was observed before, no field falling below either, and all is written back |
| UsageProjection.MergedDayKeeps | src/host/usage-projection.ts:73-83 | each field of a merged day is at least that of memory and of store, and one of the two |
| UsageProjection.UsageProjection.ObserveSettled | src/host/usage-projection.ts:100-119 | a batch moves one session's cursor and raises one day's worth by exactly what is due of it, in memory and in the store |
| UsageProjection.UsageProjection.AlignDailyBucket | src/host/usage-projection.ts:159-178 | the local day's bucket moves to the authoritative date and leaves nothing behind |
| UsageProjection.UsageProjection.DiscardDailyTotals | src/host/usage-projection.ts:206-210 | day totals go, every cursor stays |
| UsageProjection.AlignConserves | src/host/usage-projection.ts:159-178 | a merged bucket is worth the sum of both, side by side, except a carry under a destination without whole tokens |
| VoteBudget.LevelKeepsOrder | src/domain/vote-budget.ts:20-30 | a lower bucket stays lower however long both refill |
| VoteBudget.ClampIsLargestAllowed | src/domain/vote-budget.ts:36-48 | the clamp is the largest spend every bound allows |
| VoteBudget.AffordabilityAgrees | src/backend/store.ts:444-449 | SQL guard, table CHECK and floor-division fold define the same affordability |
| VoteBudget.SpendKeepsTokens | src/domain/incense.ts:43-98 | spending moves sticks from remaining to used and leaves tokens alone |
| VoteRateLimiter.VoteRateLimiter.EvictExpired | src/backend/vote-rate-limit.ts:142-148 | the loop drops exactly the buckets idle for a window |
| VoteRateLimiter.VoteRateLimiter.Inspect | src/backend/vote-rate-limit.ts:48-82 | the decision on the current level; room may be made, no bucket is created |
| VoteRateLimiter.VoteRateLimiter.Consume | src/backend/vote-rate-limit.ts:89-122 | a charge succeeds exactly when the level covers it, and takes exactly that; less than one stick is answered without a charge |
| VoteRateLimiter.RetryAfterIsExact | src/backend/vote-rate-limit.ts:136-140 | from the level a charge found, waiting as told is enough and a millisecond less is not |
| VoteRateLimiter.InspectRetryIsEnough | src/backend/vote-rate-limit.ts:71-81 | from the level rounded down to no stick, waiting as told is enough, never shorter than needed and longer by less than the fraction's refill and a millisecond |
| VoteOffers.RoomExactly | src/backend/vote-rate-limit.ts:53-61 | a new key finds room exactly when fewer keys than the cap were charged within the last minute; only idle keys are forgotten, and only then |
| VoteOffers.OfferExactly | src/backend/vote-rate-limit.ts:48-82 | with room a newcomer is offered one minute's rate, a forgotten key the whole sticks of the refill since its last vote, a held one those of its rest and refill, both up to ten minutes' worth |
| VoteOffers.WaitingHelps | src/backend/vote-rate-limit.ts:61-81 | who is told to wait and does is let pass, unless others filled the map |
| VoteOffers.ChargeExactly | src/backend/vote-rate-limit.ts:99-121 | a charge succeeds exactly when a look offers as much, takes exactly that, and when refused costs nothing at any later time |
| VoteOffers.RefusedWaitIsExact | src/backend/vote-rate-limit.ts:111-119 | the wait of a refused charge is the least after which it succeeds, for any amount the bucket can hold |
| VoteOffers.NeverShort | src/backend/vote-rate-limit.ts:48-148 | at any moment of any run, whatever was evicted or restarted, an installation that is held or ever had a vote accepted is offered at least the refill since its last charge, anybody else exactly one minute's rate |
| VoteOffers.HeldIsOffered | src/backend/vote-rate-limit.ts:76-87 | a bucket that nobody charged or evicted meanwhile is offered in full |
| VoteRateLimiter.ChargeAfterInspect | src/backend/http.ts:641-663 | within what inspect offered a charge cannot fail |
| VoteRateLimiter.SpendIsPaidFor | src/backend/vote-rate-limit.ts:48-148 | grants plus the ideal bucket's rest are covered by its start level and the time, whatever was evicted, rebuilt, rejected or restarted |
| VoteRateLimiter.GrantsStayWithinBudget | src/backend/vote-rate-limit.ts:48-148 | over any stretch grants stay within burst cap plus rate times time, and the map within its key cap |
| VoteRateLimiter.GrantsSinceTheStart | src/backend/vote-rate-limit.ts:33-42 | so they do from an empty limiter on |
| Archive.SumStatsTake | src/backend/store.ts:839-856 | the order in which a date's aggregates are added does not matter |
| Archive.DaySumIsTotal | src/backend/store.ts:839-856 | the sum over a date's cases is the ledger's total for the date |
| Archive.PeriodCountsLedger | src/backend/service.ts:277-311 | the sum of a period's sealed days is the ledger's total over its whole range |
| Archive.CoveredAreSealed | src/backend/service.ts:278-311 | what a period covers is the number of sealed dates in it |
| Archive.FinalizeIsSound | src/backend/service.ts:235-312 | a rollover adds only true rows, changes none, leaves nothing before its date unsealed, and gives new rows the next version |
| Archive.ArchiveUndisturbed | src/backend/service.ts:235-312 | a change on an unsealed date leaves every sealed row true |
| Consistency.PublishKeepsSnapshot | src/backend/store.ts:484-489 | publishing appends the next sequence and pruning keeps the newest 200 without a gap |
| Consistency.StatsAfterVote | src/backend/service.ts:1124 | bumping the aggregate by an accepted vote recounts the ledger, first voters included |
| Consistency.VotesAfterVote | src/backend/service.ts:1092-1123 | a recorded vote and its receipt keep keys unique and rows matched |
| Consistency.UsedAfterVote | src/backend/service.ts:1078-1104 | a spend and its ledger row keep used sticks equal to accepted ones |
| AuthoritySteps.ClampedSpendIsAffordable | src/backend/service.ts:1066-1091 | after the clamp the guarded spend cannot be refused |
| AuthoritySteps.FreshVoteOutcome | src/backend/service.ts:1063-1135 | a fresh vote on the open case is accepted exactly when one stick is allowed, for the largest allowed amount, paid exactly from the balance |
| AuthorityEffects.FreshVoteLeaves | src/backend/service.ts:1063-1135 | the receipt states the request; a refusal leaves no more than the row of a first contact; an acceptance adds one ledger row with the request, the amount, the counters after it and its time, and touches nobody else |
| AuthoritySteps.OtherCasesAreRefused | src/backend/service.ts:1027-1061 | any other fresh vote is refused with the right reason and leaves only its receipt |
| AuthoritySteps.VoteKeepsConsistent | src/backend/service.ts:1008-1135 | the vote transaction keeps every table invariant, whatever case row the caller held |
| AuthoritySteps.ClaimKeepsConsistent | src/backend/service.ts:598-653 | so does a claim |
| AuthorityEffects.ClaimExactly | src/backend/service.ts:609-643 | a claim for another date touches nothing; an applied one leaves the largest number that is asked for and one jump of at most the ceiling away, hence what was asked exactly when the jump fits, and is marked capped exactly when it does not |
| AuthorityEffects.GiftExactly | src/backend/service.ts:1249-1278 | a first contact opens a row at the case's rate; a device without a grant for the date gets exactly the configured sticks more to spend, recorded in one grant, anybody else nothing |
| AuthoritySteps.RotateKeepsConsistent | src/backend/service.ts:185-226 | so does a rotation, and a case is open after it |
| AuthorityEffects.RotationExactly | src/backend/service.ts:185-226 | a rotation closes exactly the cases of earlier dates and opens one at the configured rate, empty and stamped, unless today's is open |
| AuthoritySteps.PublishCaseKeepsConsistent | src/backend/service.ts:523-564 | so does a same-day republish, which clears what was spent |
| AuthorityEffects.PublishExactly | src/backend/service.ts:523-564 | a publish fails exactly when its id is taken; it closes the cases of its date and before, opens one at the configured rate, and clears exactly what was used on its date |
| AuthoritySteps.ResetKeepsConsistent | src/backend/store.ts:918-940 | so does wiping a date |
| AuthorityEffects.ResetExactly | src/backend/store.ts:918-940 | a reset deletes exactly the date's votes, receipts and closed cases, clears what was used on it and starts its open case over; it is refused exactly without one |
| AuthorityRuns.OpenDateIsUnsealed | src/backend/service.ts:235-312 | no sealed row speaks about a date with an open case |
| AuthorityRuns.RotateSeals | src/backend/service.ts:185-312 | a rotation seals truly, changes no sealed row, and leaves nothing before its date unsealed |
| AuthorityRuns.RefusedExactly | src/backend/service.ts:189-210 | a rotation is refused exactly when its id belongs to an earlier date and no case is open on the new one |
| AuthorityRuns.EnsureLeavesNothingUnsealed | src/backend/service.ts:185-226 | skipping the check through archiveCheckedBusinessDate misses no date |
| AuthorityRuns.RotationsAreNeverRefused | src/backend/service.ts:185-226 | after any run whose ids are made from dates or random, the next look at today's case opens one and leaves nothing earlier unsealed |
| AuthorityRuns.StepKeepsInvariant | src/backend/service.ts:185-312 | every step of any process keeps tables, archive and process memories true |
| AuthorityRuns.RunKeepsInvariant | src/backend/service.ts:185-312 | so does every run; sealed rows never change |
| AuthorityRuns.SealedDayIsTrueForEver | src/backend/service.ts:260-276 | a sealed day equals the ledger's counts for its date at the end of every later run |
| AuthorityRuns.SealedWeekIsTrueForEver | src/backend/service.ts:278-294 | a sealed week stays the sum of its sealed days and their number, the ledger's totals and the voters of its range |
| AuthorityRuns.SealedMonthIsTrueForEver | src/backend/service.ts:295-311 | the same for a sealed month |
| AuthorityRuns.ReachableAgreement | src/backend/service.ts:1063-1134 | in every reachable state aggregates, latest snapshots, used sticks and claims agree with the ledger |
| CadenceRuns.OldSequenceIsDropped | src/backend/service.ts:1392-1404 | an insert whose sequence is not beyond the newest conflicts or is pruned at once |
| CadenceRuns.StepPublishes | src/backend/service.ts:1359-1375 | every step of a run publishes, under its own stamp, whatever aggregate it changes |
| CadenceRuns.InsertExactly | src/backend/service.ts:1349-1406 | whatever two reads lie behind it, an insert keeps snapshots and aggregate in agreement exactly when it is not due, its sequence is taken, or it comes next and states the current aggregate |
| CadenceRuns.InsertLeaves | src/backend/service.ts:1379-1406 | what an insert leaves newest: what the tick read, under the next sequence and its own time, when that comes next, otherwise what was there |
| CadenceRuns.TicksChangeNothing | src/backend/service.ts:1325-1406 | over any run of any processes whose stamps lag less than the refresh interval, the tables end as they do without the ticks |
| CadenceRuns.UndisturbedTickIsIdle | src/backend/service.ts:1325-1347 | a tick whose reads and insert follow one another changes nothing, whatever the stamps |
| CadenceRuns.StraddlingTick | src/backend/service.ts:1331-1335 | a tick whose reads straddle an accepted vote breaks the agreement exactly when the vote is stamped a full interval earlier |
| CadenceRuns.LateVoteIsHidden | src/backend/service.ts:1331-1335 | a reachable run in which it does |
| BackendService.BackendService.PublishedSnapshot | src/backend/service.ts:1325-1347 | the snapshot answered shows the aggregate, and the tables stay |
| BackendService.BackendService.DayArchiveSource | src/backend/store.ts:839-856 | the reduction over a date's cases is the row to seal |
| BackendService.BackendService.CollectPeriods | src/backend/service.ts:244-256 | the loop collects exactly the ended, unsealed periods that hold a candidate date |
| BackendService.BackendService.SealSpans | src/backend/service.ts:277-311 | the loop inserts each pending period, none of which is empty |
| BackendService.BackendService.FinalizeArchives | src/backend/service.ts:235-312 | the whole procedure makes exactly the specified change |
| BackendService.BackendService.RotateTransaction | src/backend/service.ts:189-222 | close, seal and open in one transaction, rolled back when the id is taken |
| BackendService.BackendService.EnsureActiveCase | src/backend/service.ts:185-226 | one rotation step; the date is remembered only after the commit; the returned case is the open one, a new one as configured |
| BackendService.BackendService.PublishCase | src/backend/service.ts:523-564 | one publish step, or a full rollback exactly when the id is taken |
| BackendService.BackendService.ResetTodayCase | src/backend/service.ts:684-712 | one reset step, refused exactly without an open case |
| BackendService.BackendService.ApplyTokenClaim | src/backend/service.ts:598-653 | one claim step; an applied claim leaves the largest number that request and ceiling allow, capped exactly when the jump does not fit |
| BackendService.BackendService.SpendAndRecord | src/backend/service.ts:1078-1124 | spend, ledger row with counters read back, receipt, aggregate and snapshot are the specified acceptance |
| BackendService.BackendService.CastVote | src/backend/service.ts:967-1135 | one vote step; neither the spend guard nor the unique key can refuse inside it |
| Idempotency.ReceiptsMatchVotes | src/backend/service.ts:1092-1123 | accepted receipts and ledger rows are in bijection and agree |
| Idempotency.RetryAnswersTheSame | src/backend/service.ts:1015-1026 | a retry after any run without a wipe gives the same disposition and changes no table |
| Idempotency.OtherPayloadIsRefused | src/backend/service.ts:1207-1217 | a known id with another payload is refused and not recorded, after any run without a wipe |
| VoteResponse.PersonalPasses | src/shared/backend-v1.ts:479-524 | the personal state built from a row passes the accounting validator exactly when it is representable |
| VoteResponse.SnapshotPasses | src/shared/backend-v1.ts:534-604 | the published snapshot passes exactly when its counts are safe, unchanged, and states the aggregate |
| VoteResponse.LifetimeCounts | src/backend/store.ts:997-1003 | the lifetime figure is the total of the whole ledger |
| VoteResponse.PersonalAcceptedExactly | src/shared/backend-v1.ts:479-524 | the validator accepts exactly safe counts whose derived fields are what the accounting fold makes of claim, spend and rate |
| VoteResponse.SnapshotAcceptedExactly | src/shared/backend-v1.ts:537-604 | the validator accepts exactly safe counts that fit together with their own ratios, and recomputes the label |
| VoteResponse.ResponseAcceptedExactly | src/shared/backend-v1.ts:753-819 | a response is accepted exactly when its parts are and tell the same |
| VoteResponse.EveryAnswerPasses | src/shared/backend-v1.ts:753-819 | in every reachable state the answer to any vote, fresh, refused or replayed, passes the host's validators unchanged exactly when its counts are safe |
| VoteEndpoint.LastAcceptedVoteAt | src/backend/store.ts:777-781 | the latest acceptance time of an installation, none exactly without votes |
| VoteEndpoint.FreshAccepted | src/backend/service.ts:1063-1135 | an accepted vote took between one stick and what was offered, and is the ledger's last row |
| VoteEndpoint.PostCharges | src/backend/http.ts:629-663 | the ignored charge always succeeds; the bucket pays exactly what the ledger records, one for a refusal, nothing for a replay |
| VoteEndpoint.ServedExactly | src/backend/http.ts:629-663 | a post is turned away exactly when its id is new, the limiter is on and no whole stick is left for it; any other gets the vote transaction's answer under what was offered |
| VoteEndpoint.PostVote | src/backend/http.ts:629-663 | the handler makes exactly the specified change of tables and buckets |
| EndpointRuns.MoveKeepsTracks | src/backend/http.ts:629-663 | a post under a new id is one possible event of the limiter, and buckets, last votes and ledger rows change as the event says |
| EndpointRuns.PostsStayWithinBudget | src/backend/http.ts:629-663 | over any stretch of a process's life the accepted votes an installation gains in the ledger stay within burst cap plus rate times time |
| StarterGrants.EnsureRowKeepsGifts | src/backend/service.ts:1249-1278 | making sure of a row gives at most one gift and keeps rows and grants balanced |
| StarterGrants.StepKeepsGifts | src/backend/service.ts:1265-1278 | every step keeps the balance and every grant, whatever happens to identities |
| StarterGrants.RunKeepsGifts | src/backend/service.ts:1265-1278 | over any run gift tokens on a date's rows sum to the date's grants, one per device and date |
| StarterGrants.RunKeepsRate | src/backend/service.ts:1265-1278 | over any run cases and rows carry the configured rate and every gift on record is worth the configured sticks |
| Admission.ConsumingCounts | src/backend/store.ts:654-660 | consuming moves one claim from remaining to claimed, never past the maximum |
| Admission.ExpiringKeeps | src/backend/store.ts:661-664 | expiring changes neither claimed nor remaining totals |
| Admission.ExpiresExactly | src/backend/store.ts:661-664 | active afterwards is exactly what was active and has time left, and nothing else of a ticket changes |
| Admission.AdmissionDesk.ClaimAdmission | src/backend/service.ts:373-428 | a claim succeeds exactly for a new installation, a free device and key and a usable ticket, consumes one claim for one identity, and otherwise leaves no trace; each refusal exactly under its condition |
| Admission.AdmissionDesk.UnbindIdentity | src/backend/service.ts:871-878 | the identity goes, its fingerprint is free, no claim comes back |
| Admission.AdmissionDesk.RekeyIdentity | src/backend/service.ts:887-954 | a binding moves, waits out the cooldown or conflicts, each exactly under its condition on device, idle time and key, and no other identity changes |
| Admission.AdmissionDesk.MintAdmissionTickets | src/backend/service.ts:744-776 | the new tickets are those asked for, each adds its claims to what remains, and no other ticket changes |
| Admission.AdmissionDesk.ReplenishAdmissionInventory | src/backend/service.ts:473-499 | at least the target of remaining claims is left, existing tickets only expire |
| ClaimProtocol.RatchetIsAuthority | src/backend/service.ts:609-643 | the ratchet of the protocol is the authority's claim transaction: the largest number that request and ceiling allow |
| ClaimProtocol.TargetAfterBootstrap | src/host/backend-service.ts:702-708 | right after a bootstrap the next target is the gift plus the larger of claimed usage and local total |
| ClaimProtocol.StepKeepsSafe | src/host/backend-service.ts:659-697 | one completed round trip, with usage arriving in flight, keeps claims covered by observations |
| ClaimProtocol.NeverOverclaims | src/host/backend-service.ts:626-708 | no run whose round trips complete in order ever claims more than was observed |
| ClaimProtocol.BootstrapCatchesUp | src/host/backend-service.ts:702-708 | tokens seen in flight are recovered by the next bootstrap and claim |
| ClaimProtocol.PostsRise | src/host/backend-service.ts:626-657 | between two bootstraps every number posted is larger than all posted or withheld before, whatever was answered |
| ClaimProtocol.ClaimsKeepUp | src/host/backend-service.ts:626-708 | after a bootstrap and any run of usage and prompt claims the next claim brings the claimed usage to the larger of claim and local total plus everything observed since |
| ClaimProtocol.FaultsAreRepairedByBootstrap | src/host/backend-service.ts:455-494 | a lost reply or an overtaken bootstrap is repaired by the next bootstrap |
| ClaimProtocol.DoomedExactly | src/host/backend-service.ts:626-708 | a later over-claim by round trips in order is possible exactly when claimed usage and what the host would add exceed what was observed |
| ClaimProtocol.ClaimRepairsExactly | src/host/backend-service.ts:674-697 | without a bootstrap a claim averts it exactly by being posted above the server's claim and a pending gift |
| ClaimProtocol.AfterLostReply | src/host/backend-service.ts:674-697 | after a lost reply an over-claim is possible exactly when the claim gained more than the slack, and after the next claim exactly when that one was not applied |
| ClaimProtocol.AfterOvertakenBootstrap | src/host/backend-service.ts:549-566 | after an older bootstrap an over-claim is possible exactly when the local total reaches beyond the usage it knows and what it missed exceeds what was discarded |
| ClaimProtocol.ClaimBeforeBootstrap | src/host/backend-service.ts:641-644 | after a claim before the first bootstrap an over-claim is possible exactly when it is posted, refused, and claimed usage and local total exceed what was observed |
| ClaimProtocol.LostReplyOverclaims | src/host/backend-service.ts:677-679 | the over-claim after a lost reply, as a run |
| ClaimProtocol.OvertakenBootstrapOverclaims | src/host/backend-service.ts:549-566 | the over-claim after an overtaken bootstrap, as a run |
| ClaimProtocol.ClaimBeforeBootstrapOverclaims | src/host/backend-service.ts:641-644 | the over-claim of a restarted host before its first bootstrap, as a run |
| ClaimProtocol.ClaimHost.SubmitClaim | src/host/backend-service.ts:626-657 | posts exactly when the target is above the known ledger and above what was sent |
| ClaimProtocol.ClaimHost.ClaimReturned | src/host/backend-service.ts:659-697 | adopts the answer; only an applied claim moves the baseline |
| ClaimProtocol.ClaimHost.AdoptBootstrap | src/host/backend-service.ts:549-566 | adopts the answer and rederives the baseline from it |
| ClaimProtocol.ClaimHost.DiscardDailyTotals | src/host/backend-service.ts:249-254 | drops the local total, the baseline and the last claim sent |
| TimedDumpSafety.SumsAfterCompletion | src/domain/local-incense.ts:53-83 | completing a job adds its amount once, to the right side, mode and date, rolling over when the date moved |
| TimedDumpSafety.CompletedBooks | src/host/day-end-service.ts:226-233 | a completion counts an id exactly when it was not counted before |
| TimedDumpSafety.StepKeepsInvariant | src/host/day-end-service.ts:79-244 | every step keeps the books, the persisted intents and the distances |
| TimedDumpSafety.ExactlyOnce | src/host/day-end-service.ts:183-244 | over any run, from an empty store or what an earlier run left, the timed ledger is the sum of what was accepted for exactly the finished ids, each once, in memory and on disk |
| TimedDumpSafety.DumpsAreRationed | src/host/day-end-service.ts:133-244 | over any run at most one closing id per mode and date is adopted, adopted periodic intents of a mode were created ten minutes apart, and only adopted intents are sent |
| TimedDumpSpacing.CreatedAfterAdopted | src/host/day-end-service.ts:195-214 | any created daytime intent, saved or not, comes a full period after everything its mode adopted |
| TimedDumpSpacing.StepKeepsSpaced | src/host/day-end-service.ts:133-244 | every step keeps the distances, and what failed holds the next run off |
| TimedDumpSpacing.NextIntentExactly | src/host/day-end-service.ts:133-217 | in every reachable state another daytime intent of a mode can be created before a time within the period exactly when waits, key and today's job allow it by then |
| TimedDumpSpacing.FollowedExactly | src/host/day-end-service.ts:204-239 | right after a creation another can follow within the period exactly when its save did not succeed |
| TimedDumpSpacing.NotAfterAdoption | src/host/day-end-service.ts:51-57 | once an intent was adopted, also by a restart, no run creates another of its mode within its period |
| TimedDumpSpacing.FiveSecondsApart | src/host/day-end-service.ts:161-239 | over any run any two daytime intents are created at least five seconds apart |
| TimedDumpSpacing.FailedSaveMakesAnother | src/host/day-end-service.ts:204-239 | a run in which a failed save is followed by another intent after exactly five seconds |
| TimedDumpIntents.IntentExactly | src/host/day-end-service.ts:183-217 | when a run makes an intent, and that it states direction preferred, date, case and kind of its moment and the largest count that 500 and the balance allow; what each outcome of its save leaves |
| TimedDumpIntents.DeliveredAsPreferred | src/host/day-end-service.ts:204-222 | over any run everything the authority answers asks for the direction preferred when it was made |
| TimedDumpIntents.PreferencesExactly | src/host/day-end-service.ts:68-94 | preferences change by a saved change of them and by a restart, to what is on disk, and by nothing else |
| TimedDumpIntents.ScheduleExactly | src/host/day-end-service.ts:133-165 | what a look of the scheduler leaves of key and waits |
| TimedDumpIntents.FirstPeriodIsExact | src/host/day-end-service.ts:151-156 | the first dump of a key can be made exactly ten minutes after it became affordable, and not before |
| TimedDumpIntents.NextPeriodIsExact | src/host/day-end-service.ts:223-235 | the next dump can be made exactly ten minutes after one that was completed, and not before |
| TimedDumpIntents.FailuresExactly | src/host/day-end-service.ts:226-243 | a failed run leaves memory alone and keeps the next one off for five seconds; a restart knows what is on disk and waits for nothing |
| TimedDumpSafety.PersistedBeforeSent | src/host/day-end-service.ts:211-222 | whatever is sent is on disk at that moment, unchanged |
| TimedDumpAuthority.VoteSettlesOnce | src/backend/service.ts:1008-1135 | the authority settles an id once, for no more than asked, and answers what it settled |
| TimedDumpAuthority.SettledForEver | src/backend/service.ts:1137-1198 | what is settled stays settled |
| TimedDumpRuns.MoveKeepsInvariant | src/host/day-end-service.ts:183-244 | every move of host, authority or network keeps what the host heard of an online id equal to what the tables hold of it |
| TimedDumpRuns.VerdictIsTheTables | src/host/day-end-service.ts:222-235 | after any run without a wipe the answer to an online id is the tables' receipt and row, with the job's case, direction and count, and an unanswered id has neither |
| TimedDumpRuns.SumIsTotal | src/host/day-end-service.ts:226-233 | the host's sum over its counted ids is the ledger's total over their rows |
| TimedDumpRuns.OnlineLedgerIsTheTables | src/host/day-end-service.ts:183-244 | over any run of both sides the online timed ledger, in memory and on disk, is the total of the authority's rows under exactly the ids it counted, at most one row each |
| DayEndState.ParseDayEndState | src/shared/day-end.ts:41-87 | the validator copies exactly the valid states; dumps stay on exactly when they were on under the current cadence, so a state without one comes out disabled |
| DayEndState.StoredIsReread | src/shared/day-end.ts:41-87 | every state held or stored in any run is read back as the same state exactly when its lifetime counts are safe |
| DayEndState.AcceptedExactly | src/shared/day-end.ts:41-87 | the validator accepts exactly what, brought to the current cadence, is the stored form of a state whose jobs could be sent and whose counts fit |
| DayEndState.PrintIsInjective | src/shared/day-end.ts:41-87 | no two states are stored alike |
| DayEndService.DayEndService.Save | src/host/day-end-service.ts:79-94 | written first, adopted only without an error |
| DayEndService.DayEndService.UpdateSchedule | src/host/day-end-service.ts:133-165 | one scheduling step: a new key or authority clears wait and retry delay, an affordable dump starts the wait |
| DayEndService.DayEndService.Use | src/host/day-end-service.ts:43-49 | switching authorities restarts the periodic wait |
| DayEndService.DayEndService.PrepareRun | src/host/day-end-service.ts:183-217 | one preparing step: a new intent only when today's job allows it and the wait is over, persisted before anything is sent |
| DayEndService.DayEndService.SendRun | src/host/day-end-service.ts:218-222 | one sending step: exactly the persisted job goes out |
| DayEndService.DayEndService.RecordOutcome | src/host/day-end-service.ts:223-235 | one completing step: done and counted together, or neither |
| DayEndService.DayEndService.RunFailed | src/host/day-end-service.ts:236-243 | one failing step: nothing is awaited and the next run is held off |
| DayEndService.DayEndService.SetDayEndPreferences | src/host/day-end-service.ts:68-71 | one preference step; jobs and books stay |
| DayEndService.DayEndService.AttachDayEndPersistence | src/host/day-end-service.ts:51-57 | a new process starts from what is stored |
| History.EnsureUnique | src/shared/history-v1.ts:253-260 | the loop accepts exactly lists without a repeated key |
| History.PrintParse | src/shared/history-v1.ts:262-295 | parsing a printed well-formed archive gives it back |
| History.ParsePrint | src/shared/history-v1.ts:262-295 | whatever parses is well formed and prints back to what was parsed |
| History.ParsesExactly | src/shared/history-v1.ts:139-295 | an archive is accepted exactly when its counts are safe, every row is within calendar, envelope and counts, and no table repeats a key |
| History.DerivesExactly | src/domain/archive.ts:148-170 | derived values exist exactly for safe counts with no more voters than sticks, and are their total, ratios and state |
| History.ReplaceByKey | src/shared/history-v1.ts:297-322 | the merge is the union by key with later rows winning, in date order |
| History.AscendingIsUnique | src/shared/history-v1.ts:317-322 | rows in date order are determined by what they hold |
| History.MergeHistoryArchive | src/shared/history-v1.ts:304-326 | full replaces, older is ignored, newer is merged table by table |
| HistorySync.MergeKeepsExact | src/shared/history-v1.ts:304-326 | an answer from any cursor the cache has reached keeps the cache exact |
| HistorySync.DeltaRefinesFull | src/backend/service.ts:804-845 | merging the delta from its own cursor gives the very rows of a full fetch, both read with nothing sealed in between |
| HistorySync.CacheStaysExact | src/host/backend-service.ts:570-603 | over any run of growth, requests, answers and losses in which every answer is read at one moment, as a single process reads it, the cache holds exactly the sealed rows up to its cursor, in date order |
| HistorySync.CacheTellsTheLedger | src/backend/service.ts:804-845 | every row of an exact cache states the ledger's own counts, voters, ratios and tier for its date or span, and everything sealed up to the cursor has one |
| HistoryRuns.WholeExactly | src/backend/service.ts:804-845 | what four statements read answers the request as of the last exactly when no row of a table was sealed after that table was read |
| HistoryRuns.OneDateIsWhole | src/backend/service.ts:805-835 | an answer read on one business date after its rotation is whole |
| HistoryRuns.ReceiveExactly | src/shared/history-v1.ts:304-326 | merging an answer into an exact cache keeps it exact exactly when the answer was whole |
| HistoryRuns.LacksForEver | src/host/backend-service.ts:570-603 | a row that a cache lacks below its cursor is brought by no later step |
| HistoryRuns.CacheFollowsAnswers | src/host/backend-service.ts:570-603 | over any run of the authority's processes, reads, answers and losses the cache is exact as long as every merged answer was whole, and lacks a row ever after |
| HistoryRuns.LateSealIsLost | src/backend/service.ts:811-835 | a reachable run in which a sealed day is lost |
| HistorySync.ServedArchivePasses | src/shared/history-v1.ts:139-295 | in every reachable state a history answer passes the host's validation unchanged exactly when its counts are safe |

## Left out

- Floating point: ratios, bucket levels and thresholds are exact rationals or integers, so rounding inside the validators' 1e-9 tolerance is not modelled.
- SQLite, HTTP, sockets, timers, files, environment configuration and time zones: transactions are atomic steps, a business date is a day number given with each request.
- Signatures, hashes and random ids: fresh ids and secrets are parameters that are assumed fresh; `authenticateCommunityRequest` and its refresh of `last_seen_at` are not modelled.
- Case titles, policy versions and `finalized_at` in archive rows, the case bank and queue, broadcasts.
- Rows without counts from schemas before version 11, and the migrations.
- `clearHistoryArchives` and `replaceAdmissionTickets`: they deliberately break history and inventory. Resetting a date is part of the runs, but idempotency is stated for runs without it.
- The vote limiter's `check` and `reset`, and the admission and identity rate limiters.
- `parseIncenseWeightPolicy`, `canonicalModelId` and `incenseWeightRows`: text handling; weights are given for canonical ids.
- `foldUsageObservation` beyond the marks it raises: cumulative observations of the development host credit through the same weighted fold.
- Rollover on the claiming host: `ClaimProtocol` follows one business date; a claim for another date is ignored by `Authority.ApplyTokenClaim`.
- The local authority of the timed dumps is assumed to answer an id once and for all, as the online one is proved to; `src/host/fake-service.ts` is not part of this model.
- The gesture lease and the idle time after a manual vote: they only postpone a run of the timed dumps, and a run that shows something possible has neither.
- TimedDumpSpacing.NextIntentExactly: whether the closing window is open is an input of each scheduling step and not computed from clock and time zone; the runs it says exist are those the window leaves room for.
- Relaying a filtered archive from the host to the panel, and the temporary week and month views.
- EndpointRuns.PostsStayWithinBudget: is stated for runs without a wipe of a date, which deletes the rows it counts, and for one process, as the limiter asks (`src/backend/vote-rate-limit.ts:9-10`).
- TimedDumpRuns.OnlineLedgerIsTheTables: is stated for runs without a wipe of a date, which deletes rows the host has counted.
- UsageLedger.CreditedAtMostOnce: holds for runs that are orderly in their offsets only, because batches that start a format anew too early and hydrations behind memory make requests creditable twice; puts into the store are assumed to land.
- HistorySync.CacheStaysExact: takes each answer as read at one moment; HistoryRuns.CacheFollowsAnswers says what holds when other processes act between its statements.
- ClaimProtocol.NeverOverclaims: holds for round trips that complete in order only, because the other runs over-claim.
- DayEndState.ParseDayEndState: business dates and object shapes are typed, so their syntax checks are not modelled.
