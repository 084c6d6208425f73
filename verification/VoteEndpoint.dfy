/** `POST /v1/votes`: the limiter is inspected, the service votes within what it offered, and the limiter is charged. */
module VoteEndpoint {
  import opened Common
  import opened Ledger
  import opened VoteBudget
  import opened Database
  import opened Authority
  import opened AuthorityRuns
  import Backend = BackendService
  import Sealing = Archive
  import AuthoritySteps
  import Consistency
  import Limiter = VoteRateLimiter
  import Offers = VoteOffers

  datatype Reply = TooManyRequests | NoCase | Served(result: VoteResult, charged: nat)

  /** MAX(created_at) over an installation's accepted votes. */
  function LastAcceptedVoteAt(votes: seq<VoteRow>, i: InstallationId): (last: Option<int>)
    ensures last.None? <==> forall v :: v in votes ==> v.installationId != i
    ensures last.Some? ==> (exists v :: v in votes && v.installationId == i && v.createdAt == last.value)
                           && forall v :: v in votes && v.installationId == i ==> v.createdAt <= last.value
  {
    if votes == [] then None
    else
      var row := votes[|votes| - 1];
      var before := LastAcceptedVoteAt(votes[..|votes| - 1], i);
      assert forall v :: v in votes <==> v in votes[..|votes| - 1] || v == row;
      if row.installationId != i then before
      else if before.Some? && before.value >= row.createdAt then before
      else Some(row.createdAt)
  }

  /** A vote that was accepted now took at least one stick, at most what it was offered, and is the ledger's last row. */
  lemma FreshAccepted(db: Db, config: Config, i: InstallationId, intent: Intent, active: CaseRow, now: int, maxSpend: Limit)
    requires (i, intent.requestId) !in db.receipts
    ensures var (after, result) := Vote(db, config, i, intent, active, now, maxSpend);
            && (result.Accepted? ==>
                  && !result.replayed && result.spent >= 1 && (maxSpend.Sticks? ==> result.spent <= maxSpend.sticks)
                  && |after.votes| == |db.votes| + 1 && after.votes[..|db.votes|] == db.votes
                  && var v := after.votes[|db.votes|]; v.accepted == result.spent && v.installationId == i && v.createdAt == now)
            && (result.Rejected? ==> after.votes == db.votes)
  {
    hide EnsureRow, AcceptVote, CanSpend, RecordRejected, RemainingFor, UsedFor;
    if intent.caseId in db.cases {
      var ready := EnsureRow(db, config, i, db.cases[intent.caseId]);
      EnsureRowFrame(db, config, i, db.cases[intent.caseId]);
      AcceptFrame(ready, i, intent, active, ClampedSpend(ready, i, intent, active.day, maxSpend), now);
      AuthoritySteps.RejectFrame(ready, i, intent, active, InsufficientIncense, NO_INCENSE);
      AuthoritySteps.RejectFrame(db, i, intent, active, CaseNotActive, "case " + intent.caseId + " is closed");
      AuthoritySteps.RejectFrame(db, i, intent, active, StaleCase, "case " + intent.caseId + " is not the active case");
    } else {
      AuthoritySteps.RejectFrame(db, i, intent, active, StaleCase, "case " + intent.caseId + " does not exist");
    }
  }

  lemma RotationKeepsReceipts(w: World, config: Config, periods: Sealing.Periods, p: Process, day: Day, id: CaseId, title: string, now: int)
    ensures EnsureActive(w, config, periods, p, day, id, title, now).db.receipts == w.db.receipts
    ensures EnsureActive(w, config, periods, p, day, id, title, now).db.votes == w.db.votes
  {
    hide Sealing.Finalize, HasActive;
  }

  /** A known request keeps its answer and costs nothing. */
  lemma ReplayIsFree(db: Db, config: Config, i: InstallationId, intent: Intent, active: CaseRow, now: int, maxSpend: Limit)
    requires (i, intent.requestId) in db.receipts
    ensures var (after, result) := Vote(db, config, i, intent, active, now, maxSpend);
            after == db && (result.Accepted? ==> result.replayed)
  {
  }

  /** What the limiter is charged for one request, and that the charge cannot fail: the handler ignores its result. */
  predicate ChargedExactly(before: Limiter.Windows, after: Limiter.Windows, i: InstallationId, charged: nat, now: int,
                           last: Option<int>, rate: int, maxKeys: nat)
  {
    rate > 0 ==>
      var admitted := Limiter.Admitting(before, i, maxKeys, now);
      after == admitted[i := Bucket(Limiter.CurrentLevel(admitted, i, now, last, rate) - charged * WINDOW_MS, now)]
  }

  // ----- one request as a change of tables and buckets -----

  /** The backend's one process: its tables and the limiter's buckets. */
  datatype Node = Node(world: World, windows: Limiter.Windows)

  datatype Request = Request(installation: InstallationId, intent: Intent, day: Day, caseId: CaseId, title: string,
                             limiterNow: int, now: int)

  datatype Limits = Limits(rate: int, maxKeys: nat)

  ghost function ActiveRow(db: Db, day: Day): CaseRow
    requires HasActive(db, day)
  {
    var c :| c in db.cases && ActiveOn(db, day, c);
    db.cases[c]
  }

  predicate Known(n: Node, r: Request) {
    (r.installation, r.intent.requestId) in n.world.db.receipts
  }

  /** The buckets after the look at the limiter that a new request id takes. */
  function LookedAt(n: Node, r: Request, limits: Limits): Limiter.Windows {
    if Known(n, r) || limits.rate <= 0 then n.windows else Limiter.Admitting(n.windows, r.installation, limits.maxKeys, r.limiterNow)
  }

  function Offer(n: Node, r: Request, limits: Limits): Limiter.Decision {
    if Known(n, r) || limits.rate <= 0 then Limiter.ALLOWED_UNLIMITED
    else Limiter.InspectDecision(LookedAt(n, r, limits), r.installation, r.limiterNow,
                                 LastAcceptedVoteAt(n.world.db.votes, r.installation), limits.rate, limits.maxKeys)
  }

  predicate Refused(offer: Limiter.Decision) {
    !offer.allowed || (offer.available.Sticks? && offer.available.sticks <= 0)
  }

  function Cost(result: VoteResult): nat {
    if result.Accepted? then result.spent else 1
  }

  /** What is left in the buckets when a request is served. */
  function Paid(n: Node, r: Request, limits: Limits, result: VoteResult): Limiter.Windows {
    var looked := LookedAt(n, r, limits);
    if Known(n, r) || limits.rate <= 0 then looked
    else Limiter.Consumed(Limiter.Admitting(looked, r.installation, limits.maxKeys, r.limiterNow), r.installation, Cost(result),
                          r.limiterNow, LastAcceptedVoteAt(n.world.db.votes, r.installation), limits.rate, limits.maxKeys)
  }

  ghost function Rotated(n: Node, config: Config, periods: Sealing.Periods, r: Request): World {
    EnsureActive(n.world, config, periods, Backend.THIS_PROCESS, r.day, r.caseId, r.title, r.now)
  }

  ghost function Post(n: Node, config: Config, periods: Sealing.Periods, limits: Limits, r: Request): (Node, Reply) {
    var offer := Offer(n, r, limits);
    var rotated := Rotated(n, config, periods, r);
    if Refused(offer) then (n.(windows := LookedAt(n, r, limits)), TooManyRequests)
    else if !HasActive(rotated.db, r.day) then (Node(rotated, LookedAt(n, r, limits)), NoCase)
    else
      var (db, result) := Vote(rotated.db, config, r.installation, r.intent, ActiveRow(rotated.db, r.day), r.now, offer.available);
      (Node(rotated.(db := db), Paid(n, r, limits, result)), Served(result, if Known(n, r) then 0 else Cost(result)))
  }

  lemma OneActiveRow(db: Db, day: Day, row: CaseRow)
    requires Consistency.CasesOk(db.cases) && Backend.IsActiveRow(db, day, row)
    ensures HasActive(db, day) && ActiveRow(db, day) == row
  {
  }

  lemma InvariantCases(w: World, periods: Sealing.Periods)
    requires Invariant(w, periods)
    ensures Consistency.CasesOk(w.db.cases)
  {
    hide Sealing.ArchiveTrue, CheckedTrue, CasesUntil, TodayOpen;
  }

  /** A known request id leaves the buckets alone and costs nothing. A new one is turned away without touching the tables, or
      the bucket pays exactly what the ledger records, one stick for a refusal. */
  lemma PostCharges(n: Node, config: Config, periods: Sealing.Periods, limits: Limits, r: Request)
    ensures var (after, reply) := Post(n, config, periods, limits, r);
            var votes := n.world.db.votes;
            && (reply.TooManyRequests? ==> after.world == n.world)
            && (Known(n, r) ==> after.windows == n.windows && (reply.Served? ==> reply.charged == 0 && after.world.db.votes == votes))
            && (!Known(n, r) && reply.Served? ==>
                  && ChargedExactly(n.windows, after.windows, r.installation, reply.charged, r.limiterNow,
                                    LastAcceptedVoteAt(votes, r.installation), limits.rate, limits.maxKeys)
                  && reply.charged >= 1
                  && (reply.result.Accepted? ==>
                        && |after.world.db.votes| == |votes| + 1 && after.world.db.votes[..|votes|] == votes
                        && var v := after.world.db.votes[|votes|];
                           v.accepted == reply.charged && v.installationId == r.installation && v.createdAt == r.now)
                  && (reply.result.Rejected? ==> reply.charged == 1 && after.world.db.votes == votes))
            && (!reply.Served? ==> after.world.db.votes == votes)
  {
    hide Vote, Limiter.CurrentLevel, Limiter.Consumed, Limiter.Admitting, EnsureActive, LastAcceptedVoteAt, HasActive, ActiveRow;
    RotationKeepsReceipts(n.world, config, periods, Backend.THIS_PROCESS, r.day, r.caseId, r.title, r.now);
    var offer := Offer(n, r, limits);
    var db := Rotated(n, config, periods, r).db;
    if !Refused(offer) && HasActive(db, r.day) {
      if Known(n, r) {
        ReplayIsFree(db, config, r.installation, r.intent, ActiveRow(db, r.day), r.now, offer.available);
      } else {
        FreshAccepted(db, config, r.installation, r.intent, ActiveRow(db, r.day), r.now, offer.available);
        ServedIsPaid(n, limits, r, Vote(db, config, r.installation, r.intent, ActiveRow(db, r.day), r.now, offer.available).1);
      }
    }
  }

  /** The charge after a look that allowed it never fails, though the handler ignores its answer. */
  lemma ServedIsPaid(n: Node, limits: Limits, r: Request, result: VoteResult)
    requires !Known(n, r) && !Refused(Offer(n, r, limits))
    requires result.Accepted? ==> result.spent >= 1 && (Offer(n, r, limits).available.Sticks? ==> result.spent <= Offer(n, r, limits).available.sticks)
    ensures ChargedExactly(n.windows, Paid(n, r, limits, result), r.installation, Cost(result), r.limiterNow,
                           LastAcceptedVoteAt(n.world.db.votes, r.installation), limits.rate, limits.maxKeys)
  {
    hide Limiter.CurrentLevel, Limiter.Consumed, Limiter.Admitting, LastAcceptedVoteAt;
    if limits.rate > 0 {
      Limiter.ChargeAfterInspect(n.windows, r.installation, Cost(result), r.limiterNow, LastAcceptedVoteAt(n.world.db.votes, r.installation),
                                 limits.rate, limits.maxKeys);
    }
  }

  /** Some whole stick is left for the installation: in its bucket, in one rebuilt since its last accepted vote, or as a newcomer. */
  predicate HasStick(n: Node, r: Request, limits: Limits) {
    var last := LastAcceptedVoteAt(n.world.db.votes, r.installation);
    && Offers.HasRoom(n.windows, r.installation, limits.maxKeys, r.limiterNow)
    && if r.installation in n.windows then
         var b := n.windows[r.installation];
         Offers.Holds(1, b.units, Offers.Elapsed(b.updatedAt, r.limiterNow), limits.rate)
       else last.Some? ==> Offers.Holds(1, 0, Offers.Elapsed(last.value, r.limiterNow), limits.rate)
  }

  /** A post is turned away exactly when its id is new, the limiter is on, and no whole stick is left for it; then tables stay.
      Any other is answered with what the vote transaction says, given what was offered, unless the rotation before it was
      refused. */
  lemma ServedExactly(n: Node, config: Config, periods: Sealing.Periods, limits: Limits, r: Request)
    ensures var (after, reply) := Post(n, config, periods, limits, r);
            var rotated := Rotated(n, config, periods, r);
            && (reply.TooManyRequests? <==> !Known(n, r) && limits.rate > 0 && !HasStick(n, r, limits))
            && (reply.NoCase? <==> !reply.TooManyRequests? && !HasActive(rotated.db, r.day))
            && (reply.NoCase? ==> after.world == rotated)
            && (reply.Served? ==>
                  HasActive(rotated.db, r.day)
                  && (after.world.db, reply.result)
                     == Vote(rotated.db, config, r.installation, r.intent, ActiveRow(rotated.db, r.day), r.now, Offer(n, r, limits).available))
  {
    hide Vote, Rotated, Offer, HasStick, HasActive, Paid;
    PassesExactly(n, r, limits);
  }

  lemma PassesExactly(n: Node, r: Request, limits: Limits)
    ensures Refused(Offer(n, r, limits)) <==> !Known(n, r) && limits.rate > 0 && !HasStick(n, r, limits)
  {
    hide Limiter.InspectDecision, Limiter.Admitting, Offers.HasRoom, Offers.Holds, Offers.OffersAll, LastAcceptedVoteAt;
    var last, offer := LastAcceptedVoteAt(n.world.db.votes, r.installation), Offer(n, r, limits);
    if Known(n, r) || limits.rate <= 0 { return; }
    Offers.OfferExactly(n.windows, r.installation, r.limiterNow, last, limits.rate, limits.maxKeys);
    if Offers.HasRoom(n.windows, r.installation, limits.maxKeys, r.limiterNow) {
      if r.installation in n.windows {
        var b := n.windows[r.installation];
        Offers.PassesWithStick(offer, b.units, Offers.Elapsed(b.updatedAt, r.limiterNow), limits.rate);
      } else if last.Some? {
        Offers.PassesWithStick(offer, 0, Offers.Elapsed(last.value, r.limiterNow), limits.rate);
      }
    }
  }

  method PostVote(service: Backend.BackendService, limiter: Limiter.VoteRateLimiter, i: InstallationId, intent: Intent,
                  day: Day, id: CaseId, title: string, limiterNow: int, now: int) returns (reply: Reply)
    requires service.Valid() && limiter.Valid() && day >= service.today
    modifies service, limiter
    ensures service.Valid() && limiter.Valid()
    ensures (Node(service.State(), limiter.windows), reply)
         == Post(old(Node(service.State(), limiter.windows)), service.config, service.periods,
                 Limits(limiter.workUnitsPerMinute, limiter.maxActiveKeys), Request(i, intent, day, id, title, limiterNow, now))
  {
    hide Vote, Limiter.CurrentLevel, Limiter.ConsumeDecision, Limiter.Consumed, Limiter.Admitting, EnsureActive, Invariant,
         Sealing.Partition, LastAcceptedVoteAt, Sealing.SealedBefore;
    var last := LastAcceptedVoteAt(service.db.votes, i);
    var existing := (i, intent.requestId) in service.db.receipts;
    var available := Unlimited;
    if !existing {
      var decision := limiter.Inspect(i, limiterNow, last);
      if !decision.allowed || (decision.available.Sticks? && decision.available.sticks <= 0) { return TooManyRequests; }
      available := decision.available;
    }
    var active := service.EnsureActiveCase(day, id, title, now);
    if active.None? { return NoCase; }
    InvariantCases(service.State(), service.periods);
    OneActiveRow(service.db, day, active.value);
    var result := service.CastVote(i, intent, active.value, now, available);
    if existing { return Served(result, 0); }
    var spent := if result.Accepted? then result.spent else 1;
    var _ := limiter.Consume(i, spent, limiterNow, last);
    reply := Served(result, spent);
  }
}
