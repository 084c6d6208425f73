/** Whole runs of one backend process: vote posts between any other requests. Each post is one event of the limiter's run, so
    the limiter's bound is a bound on the rows of the vote ledger. */
module EndpointRuns {
  import opened Common
  import opened Ledger
  import opened VoteBudget
  import opened Database
  import opened Authority
  import opened VoteEndpoint
  import Runs = AuthorityRuns
  import Limiter = VoteRateLimiter
  import Sealing = Archive
  import AuthoritySteps
  import Backend = BackendService

  /** `Act` is any other request that neither votes nor wipes a date; a restart forgets the buckets. */
  datatype Move = HandlePost(request: Request) | Act(step: Runs.Step) | RestartProcess(now: int)

  /** The process, beside the limiter's own account of it. */
  datatype Server = Server(node: Node, account: Limiter.World)

  /** The limiter's event in a move, if it has one. */
  ghost function EventOf(n: Node, config: Config, periods: Sealing.Periods, limits: Limits, move: Move): Option<Limiter.Event> {
    match move
    case Act(_) => None
    case RestartProcess(now) => Some(Limiter.Restart(now))
    case HandlePost(r) =>
      if Known(n, r) then None
      else
        var reply := Post(n, config, periods, limits, r).1;
        if !reply.Served? then Some(Limiter.Throttled(r.installation, r.limiterNow))
        else Some(Limiter.Vote(r.installation, r.limiterNow,
                               if reply.result.Accepted? then Limiter.Accepted(reply.result.spent, r.now) else Limiter.Rejected))
  }

  ghost function NodeAfter(n: Node, config: Config, periods: Sealing.Periods, limits: Limits, move: Move): Node {
    match move
    case Act(step) => n.(world := Runs.Next(n.world, config, periods, step))
    case RestartProcess(_) => Node(n.world.(checked := map[]), map[])
    case HandlePost(r) => Post(n, config, periods, limits, r).0
  }

  ghost function Next(s: Server, config: Config, periods: Sealing.Periods, limits: Limits, move: Move): Server {
    var e := EventOf(s.node, config, periods, limits, move);
    Server(NodeAfter(s.node, config, periods, limits, move),
           if e.Some? then Limiter.Next(s.account, e.value, limits.rate, limits.maxKeys) else s.account)
  }

  /** Time moves forward: the limiter's clock, and the service clock that stamps the vote after it. */
  predicate Possible(s: Server, config: Config, move: Move) {
    match move
    case HandlePost(r) => s.account.clock <= r.limiterNow <= r.now
    case Act(step) => Runs.Possible(s.node.world, config, step) && !step.CastVote? && !step.Reset?
    case RestartProcess(now) => s.account.clock <= now
  }

  // ----- the account is true -----

  ghost predicate LastVotesAgree(votes: seq<VoteRow>, account: Limiter.World) {
    forall i :: LastAcceptedVoteAt(votes, i) == Limiter.LastVote(account, i)
  }

  ghost predicate Tracks(s: Server) {
    s.node.windows == s.account.windows && LastVotesAgree(s.node.world.db.votes, s.account)
  }

  function Of(i: InstallationId): Filter { (v: VoteRow) => v.installationId == i }

  function AcceptedIn(e: Option<Limiter.Event>, i: InstallationId): nat {
    if e.Some? && e.value.Vote? && e.value.id == i && e.value.outcome.Accepted? then e.value.outcome.spent else 0
  }

  lemma LastAfterVote(votes: seq<VoteRow>, v: VoteRow, i: InstallationId)
    ensures var last := LastAcceptedVoteAt(votes, i);
            LastAcceptedVoteAt(votes + [v], i)
            == if v.installationId != i || (last.Some? && last.value >= v.createdAt) then last else Some(v.createdAt)
  {
    assert (votes + [v])[..|votes|] == votes;
  }

  lemma VoteAgrees(votes: seq<VoteRow>, v: VoteRow, account: Limiter.World, after: Limiter.World)
    requires LastVotesAgree(votes, account) && after.lastVote == account.lastVote[v.installationId := v.createdAt]
    requires forall i :: i in account.lastVote ==> account.lastVote[i] <= v.createdAt
    ensures LastVotesAgree(votes + [v], after)
  {
    hide LastAcceptedVoteAt;
    forall i ensures LastAcceptedVoteAt(votes + [v], i) == Limiter.LastVote(after, i) {
      LastAfterVote(votes, v, i);
    }
  }

  lemma LastVotesArePast(account: Limiter.World, rate: int, maxKeys: nat)
    requires Limiter.Bounded(account, rate, maxKeys)
    ensures forall i :: i in account.lastVote ==> account.lastVote[i] <= account.clock
  {
    forall i | i in account.lastVote ensures account.lastVote[i] <= account.clock {
      assert Limiter.Dominated(account, i, rate);
    }
  }

  /** A post under a new id is one possible event: throttled, or a vote within what the limiter offered. */
  lemma PostIsPossible(s: Server, config: Config, periods: Sealing.Periods, limits: Limits, r: Request)
    requires Tracks(s) && Possible(s, config, HandlePost(r)) && limits.rate > 0 && !Known(s.node, r)
    ensures Limiter.Possible(s.account, EventOf(s.node, config, periods, limits, HandlePost(r)).value, limits.rate, limits.maxKeys)
  {
    hide Vote, Limiter.CurrentLevel, Limiter.Consumed, Limiter.Admitting, Runs.EnsureActive, LastAcceptedVoteAt, HasActive, ActiveRow,
         Limiter.InspectDecision;
    var n := s.node;
    var offer := Offer(n, r, limits);
    assert offer == Limiter.Offer(s.account, r.installation, r.limiterNow, limits.rate, limits.maxKeys);
    var db := Rotated(n, config, periods, r).db;
    if !Refused(offer) && HasActive(db, r.day) {
      RotationKeepsReceipts(n.world, config, periods, Backend.THIS_PROCESS, r.day, r.caseId, r.title, r.now);
      FreshAccepted(db, config, r.installation, r.intent, ActiveRow(db, r.day), r.now, offer.available);
      OffersSticks(s.account, r.installation, r.limiterNow, limits.rate, limits.maxKeys);
    }
  }

  lemma OffersSticks(account: Limiter.World, i: InstallationId, now: int, rate: int, maxKeys: nat)
    requires rate > 0
    ensures Limiter.Offer(account, i, now, rate, maxKeys).available.Sticks?
  {
  }

  /** After it buckets, last votes and rows are what the event says. */
  lemma PostIsEvent(s: Server, config: Config, periods: Sealing.Periods, limits: Limits, r: Request)
    requires Tracks(s) && Possible(s, config, HandlePost(r)) && limits.rate > 0 && !Known(s.node, r)
    requires Limiter.Bounded(s.account, limits.rate, limits.maxKeys)
    ensures Tracks(Next(s, config, periods, limits, HandlePost(r)))
    ensures forall i :: Total(Next(s, config, periods, limits, HandlePost(r)).node.world.db.votes, Of(i))
                     == Total(s.node.world.db.votes, Of(i)) + AcceptedIn(EventOf(s.node, config, periods, limits, HandlePost(r)), i)
  {
    hide Vote, Limiter.CurrentLevel, Limiter.Consumed, Limiter.Admitting, Runs.EnsureActive, LastAcceptedVoteAt, HasActive, ActiveRow,
         Limiter.InspectDecision, Total, Limiter.Bounded, ChargedExactly, LastVotesAgree;
    var votes := s.node.world.db.votes;
    var (after, reply) := Post(s.node, config, periods, limits, r);
    PostCharges(s.node, config, periods, limits, r);
    PostWindows(s, config, periods, limits, r);
    LastVotesArePast(s.account, limits.rate, limits.maxKeys);
    if reply.Served? && reply.result.Accepted? {
      var v := after.world.db.votes[|votes|];
      assert after.world.db.votes == votes + [v];
      VoteAgrees(votes, v, s.account, Next(s, config, periods, limits, HandlePost(r)).account);
      forall i ensures Total(after.world.db.votes, Of(i)) == Total(votes, Of(i)) + (if v.installationId == i then v.accepted else 0) {
        TotalAppend(votes, v, Of(i));
      }
    } else {
      SameLastVotes(votes, s.account, Next(s, config, periods, limits, HandlePost(r)).account);
    }
  }

  lemma SameLastVotes(votes: seq<VoteRow>, account: Limiter.World, after: Limiter.World)
    requires LastVotesAgree(votes, account) && after.lastVote == account.lastVote
    ensures LastVotesAgree(votes, after)
  {
  }

  lemma PostWindows(s: Server, config: Config, periods: Sealing.Periods, limits: Limits, r: Request)
    requires Tracks(s) && Possible(s, config, HandlePost(r)) && limits.rate > 0 && !Known(s.node, r)
    ensures var after := Next(s, config, periods, limits, HandlePost(r)); after.node.windows == after.account.windows
  {
    hide Vote, Limiter.CurrentLevel, Limiter.Consumed, Limiter.Admitting, Runs.EnsureActive, LastAcceptedVoteAt, HasActive, ActiveRow,
         Limiter.InspectDecision, Limiter.ConsumeDecision;
    var n := s.node;
    var offer := Offer(n, r, limits);
    var db := Rotated(n, config, periods, r).db;
    if !Refused(offer) && HasActive(db, r.day) {
      var result := Vote(db, config, r.installation, r.intent, ActiveRow(db, r.day), r.now, offer.available).1;
      PostIsPossible(s, config, periods, limits, r);
      OffersSticks(s.account, r.installation, r.limiterNow, limits.rate, limits.maxKeys);
      Limiter.ChargeAfterInspect(n.windows, r.installation, Cost(result), r.limiterNow, Limiter.LastVote(s.account, r.installation),
                                 limits.rate, limits.maxKeys);
    }
  }

  /** No other request touches the vote ledger. */
  lemma ActKeepsVotes(w: Runs.World, config: Config, periods: Sealing.Periods, step: Runs.Step)
    requires !step.CastVote? && !step.Reset?
    ensures Runs.Next(w, config, periods, step).db.votes == w.db.votes
  {
    hide Rotate, EnsureRow, RaiseClaim, PublishCase, Runs.EnsureActive, ClaimTarget;
    match step
    case EnsureCase(p, day, id, title, now) => RotationKeepsReceipts(w, config, periods, p, day, id, title, now);
    case Touch(i, caseRow) => EnsureRowFrame(w.db, config, i, caseRow);
    case Claim(i, caseRow, claimDay, requested) =>
      EnsureRowFrame(w.db, config, i, caseRow);
      var ready := EnsureRow(w.db, config, i, caseRow);
      var claimed := if (i, caseRow.day) in ready.incense then ready.incense[(i, caseRow.day)].claimed else 0;
      RaiseFrame(ready, i, caseRow.day, ClaimTarget(claimed, requested, config.absurdClaimTokens));
    case Publish(day, id, title, now) => Runs.PublishFrame(w.db, config, id, title, day, now);
    case Administer(_, _) =>
  }

  lemma RaiseFrame(db: Db, i: InstallationId, day: Day, claimed: nat)
    ensures RaiseClaim(db, i, day, claimed).votes == db.votes
  {
  }

  /** Every move keeps the account true, and its event is possible and accounts for what the ledger gained. */
  lemma MoveKeepsTracks(s: Server, config: Config, periods: Sealing.Periods, limits: Limits, move: Move)
    requires Tracks(s) && Possible(s, config, move) && limits.rate > 0 && Limiter.Bounded(s.account, limits.rate, limits.maxKeys)
    ensures var e := EventOf(s.node, config, periods, limits, move);
            var after := Next(s, config, periods, limits, move);
            && (e.Some? ==> Limiter.Possible(s.account, e.value, limits.rate, limits.maxKeys))
            && Tracks(after) && Limiter.Bounded(after.account, limits.rate, limits.maxKeys)
            && forall i :: Total(after.node.world.db.votes, Of(i)) == Total(s.node.world.db.votes, Of(i)) + AcceptedIn(e, i)
  {
    hide Limiter.Bounded, Limiter.Next, Post, LastVotesAgree, Total, Known, Runs.Next, Runs.Possible, Limiter.Possible;
    match move {
      case Act(step) => ActKeepsVotes(s.node.world, config, periods, step);
      case RestartProcess(now) => RestartTracks(s, config, periods, limits, now);
      case HandlePost(r) =>
        if Known(s.node, r) {
          KnownTracks(s, config, periods, limits, r);
        } else {
          PostIsPossible(s, config, periods, limits, r);
          PostIsEvent(s, config, periods, limits, r);
        }
    }
    var e := EventOf(s.node, config, periods, limits, move);
    if e.Some? {
      Limiter.StepKeepsBounded(s.account, e.value, limits.rate, limits.maxKeys);
    }
  }

  lemma RestartTracks(s: Server, config: Config, periods: Sealing.Periods, limits: Limits, now: int)
    requires Tracks(s) && s.account.clock <= now && limits.rate > 0
    ensures Limiter.Possible(s.account, Limiter.Restart(now), limits.rate, limits.maxKeys)
    ensures Tracks(Next(s, config, periods, limits, RestartProcess(now)))
  {
    hide LastAcceptedVoteAt;
  }

  lemma KnownTracks(s: Server, config: Config, periods: Sealing.Periods, limits: Limits, r: Request)
    requires Tracks(s) && Known(s.node, r)
    ensures Tracks(Next(s, config, periods, limits, HandlePost(r)))
    ensures Next(s, config, periods, limits, HandlePost(r)).node.world.db.votes == s.node.world.db.votes
  {
    hide LastAcceptedVoteAt, Post, ChargedExactly;
    PostCharges(s.node, config, periods, limits, r);
  }

  // ----- whole runs -----

  ghost function Run(s: Server, config: Config, periods: Sealing.Periods, limits: Limits, moves: seq<Move>): Server
    decreases |moves|
  {
    if moves == [] then s
    else Next(Run(s, config, periods, limits, moves[..|moves| - 1]), config, periods, limits, moves[|moves| - 1])
  }

  ghost predicate PossibleRun(s: Server, config: Config, periods: Sealing.Periods, limits: Limits, moves: seq<Move>)
    decreases |moves|
  {
    moves == [] ||
    (PossibleRun(s, config, periods, limits, moves[..|moves| - 1])
     && Possible(Run(s, config, periods, limits, moves[..|moves| - 1]), config, moves[|moves| - 1]))
  }

  /** The limiter's events of a run. */
  ghost function Events(s: Server, config: Config, periods: Sealing.Periods, limits: Limits, moves: seq<Move>): seq<Limiter.Event>
    decreases |moves|
  {
    if moves == [] then []
    else
      var e := EventOf(Run(s, config, periods, limits, moves[..|moves| - 1]).node, config, periods, limits, moves[|moves| - 1]);
      Events(s, config, periods, limits, moves[..|moves| - 1]) + (if e.Some? then [e.value] else [])
  }

  lemma OneMoreEvent(account: Limiter.World, events: seq<Limiter.Event>, e: Limiter.Event, i: InstallationId, limits: Limits)
    requires limits.rate > 0
    ensures Limiter.Run(account, events + [e], limits.rate, limits.maxKeys)
         == Limiter.Next(Limiter.Run(account, events, limits.rate, limits.maxKeys), e, limits.rate, limits.maxKeys)
    ensures Limiter.PossibleRun(account, events + [e], limits.rate, limits.maxKeys)
       <==> Limiter.PossibleRun(account, events, limits.rate, limits.maxKeys)
            && Limiter.Possible(Limiter.Run(account, events, limits.rate, limits.maxKeys), e, limits.rate, limits.maxKeys)
    ensures Limiter.AcceptedBy(events + [e], i) == Limiter.AcceptedBy(events, i) + AcceptedIn(Some(e), i)
  {
    hide Limiter.Next, Limiter.Possible;
    assert (events + [e])[..|events|] == events;
  }

  /** A run of the process is a run of the limiter, and what the limiter granted is what the ledger gained. */
  lemma {:induction false} RunIsLimiterRun(s: Server, config: Config, periods: Sealing.Periods, limits: Limits, moves: seq<Move>, i: InstallationId)
    requires Tracks(s) && limits.rate > 0 && Limiter.Bounded(s.account, limits.rate, limits.maxKeys)
    requires PossibleRun(s, config, periods, limits, moves)
    ensures var events := Events(s, config, periods, limits, moves);
            var after := Run(s, config, periods, limits, moves);
            && Limiter.PossibleRun(s.account, events, limits.rate, limits.maxKeys)
            && after.account == Limiter.Run(s.account, events, limits.rate, limits.maxKeys)
            && Tracks(after) && Limiter.Bounded(after.account, limits.rate, limits.maxKeys)
            && Total(after.node.world.db.votes, Of(i)) == Total(s.node.world.db.votes, Of(i)) + Limiter.AcceptedBy(events, i)
    decreases |moves|
  {
    hide Tracks, Limiter.Bounded, Next, EventOf, Possible, Total, Limiter.Possible, Limiter.Next;
    if moves != [] {
      var front, last := moves[..|moves| - 1], moves[|moves| - 1];
      RunIsLimiterRun(s, config, periods, limits, front, i);
      var before := Run(s, config, periods, limits, front);
      var e := EventOf(before.node, config, periods, limits, last);
      MoveKeepsTracks(before, config, periods, limits, last);
      AccountAfter(before, config, periods, limits, last);
      if e.Some? {
        OneMoreEvent(s.account, Events(s, config, periods, limits, front), e.value, i, limits);
      } else {
        assert Events(s, config, periods, limits, moves) == Events(s, config, periods, limits, front);
      }
    }
  }

  lemma AccountAfter(s: Server, config: Config, periods: Sealing.Periods, limits: Limits, move: Move)
    ensures var e := EventOf(s.node, config, periods, limits, move);
            Next(s, config, periods, limits, move).account
            == if e.Some? then Limiter.Next(s.account, e.value, limits.rate, limits.maxKeys) else s.account
  {
    hide EventOf, NodeAfter, Limiter.Next;
  }

  /** An account of a process that has just started, on any ledger stamped in the past. */
  function FreshAccount(votes: seq<VoteRow>, clock: int, rate: int): Limiter.World {
    var voters := set v | v in votes :: v.installationId;
    Limiter.World(map[], map i | i in voters :: Or(LastAcceptedVoteAt(votes, i)),
                  map i | i in voters :: Bucket(BurstCap(rate), Or(LastAcceptedVoteAt(votes, i))), clock)
  }

  function Or(last: Option<int>): int { if last.Some? then last.value else 0 }

  lemma FreshProcessTracks(n: Node, clock: int, limits: Limits)
    requires n.windows == map[] && limits.rate > 0 && forall v :: v in n.world.db.votes ==> v.createdAt <= clock
    ensures var account := FreshAccount(n.world.db.votes, clock, limits.rate);
            Tracks(Server(n, account)) && Limiter.Bounded(account, limits.rate, limits.maxKeys)
  {
  }

  /** Over any stretch of the life of a process, an installation's accepted votes in the ledger grow by at most the ten-minute
      burst plus the rate times the elapsed time, through replays, refusals, evictions, rotations, claims and restarts. */
  lemma PostsStayWithinBudget(n: Node, clock: int, config: Config, periods: Sealing.Periods, limits: Limits,
                              moves: seq<Move>, more: seq<Move>, i: InstallationId)
    requires n.windows == map[] && limits.rate > 0 && forall v :: v in n.world.db.votes ==> v.createdAt <= clock
    requires var s := Server(n, FreshAccount(n.world.db.votes, clock, limits.rate));
             PossibleRun(s, config, periods, limits, moves) && PossibleRun(Run(s, config, periods, limits, moves), config, periods, limits, more)
    ensures var reached := Run(Server(n, FreshAccount(n.world.db.votes, clock, limits.rate)), config, periods, limits, moves);
            var end := Run(reached, config, periods, limits, more);
            && Total(reached.node.world.db.votes, Of(i)) <= Total(end.node.world.db.votes, Of(i))
            && (Total(end.node.world.db.votes, Of(i)) - Total(reached.node.world.db.votes, Of(i))) * WINDOW_MS
               <= BurstCap(limits.rate) + (end.account.clock - reached.account.clock) * limits.rate
            && |end.node.windows| <= limits.maxKeys
  {
    hide Run, PossibleRun, Events, Limiter.Run, Limiter.PossibleRun, Limiter.Bounded, FreshAccount, Total, LastVotesAgree;
    var s := Server(n, FreshAccount(n.world.db.votes, clock, limits.rate));
    FreshProcessTracks(n, clock, limits);
    RunIsLimiterRun(s, config, periods, limits, moves, i);
    var reached := Run(s, config, periods, limits, moves);
    RunIsLimiterRun(reached, config, periods, limits, more, i);
    Limiter.GrantsStayWithinBudget(reached.account, Events(reached, config, periods, limits, more), i, limits.rate, limits.maxKeys);
  }
}
