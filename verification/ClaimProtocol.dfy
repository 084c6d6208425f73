/** How a host turns its local token total into absolute claims on the authority's ratchet, for one business date. */
module ClaimProtocol {
  import opened Common
  import opened Arithmetic
  import opened Ledger
  import opened Database
  import opened Authority
  import Effects = AuthorityEffects

  /** The balance row of the installation; usage is what was claimed beyond the gift. */
  datatype Server = Server(claimed: nat, starter: nat, used: nat, tokenPerIncense: nat)

  /** The host's fields: the last personal state it adopted, its own daily total, how much of that total it takes to be
      inside the ledger, and the last number it sent. */
  datatype Host = Host(personal: Option<Server>, local: nat, baseline: nat, lastSent: int)

  /** `observed` is every token the host has observed on this date, also those it later discarded. */
  datatype World = World(server: Server, host: Host, observed: nat)

  function Usage(s: Server): int { s.claimed - s.starter }

  // ----- the host's pure formulas -----

  function ClaimableEffectiveTokens(personal: Option<Server>, local: nat, baseline: nat): nat {
    if personal.None? then local
    else
      var p := personal.value;
      Max(p.claimed + Max(0, local - baseline), p.used * p.tokenPerIncense)
  }

  /** How much of the local total is already inside the ledger; the gift is not proof of usage. */
  function BaselineFromLedger(personal: Option<Server>, local: nat): nat {
    if personal.None? then 0 else Min(Max(0, Usage(personal.value)), local)
  }

  function Target(h: Host): nat { ClaimableEffectiveTokens(h.personal, h.local, h.baseline) }

  /** The part of the local total that the next claim adds to the ledger. */
  function Suffix(h: Host): nat { Max(0, h.local - h.baseline) }

  /** Whether `submitClaim` posts: above the ledger it knows, and above what it sent last. */
  predicate Sends(h: Host) {
    !(h.personal.Some? && Target(h) <= h.personal.value.claimed) && Target(h) > h.lastSent
  }

  function NotSent(h: Host): Host {
    if h.personal.Some? && Target(h) <= h.personal.value.claimed then h.(lastSent := Max(h.lastSent, Target(h))) else h
  }

  /** The response of a completed claim: applied replaces the baseline by the local total at response time, refused keeps it. */
  function ClaimAnswered(h: Host, target: nat, answer: Server, applied: bool): Host {
    if applied then Host(Some(answer), h.local, Min(h.local, answer.claimed), target)
    else h.(personal := Some(answer), lastSent := Max(h.lastSent, Min(target, answer.claimed)))
  }

  function Bootstrapped(h: Host, answer: Server): Host {
    Host(Some(answer), h.local, BaselineFromLedger(Some(answer), h.local), -1)
  }

  /** Drop the local total; the bootstrap that follows may fail. */
  function Discarded(h: Host): Host { h.(local := 0, baseline := 0, lastSent := -1) }

  function Restarted(h: Host): Host { Host(None, h.local, 0, -1) }

  // ----- the authority's ratchet -----

  /** A gift on first contact, then the ratchet. */
  function Granted(s: Server, gift: nat): Server { s.(claimed := s.claimed + gift, starter := s.starter + gift) }

  function Ratcheted(s: Server, target: nat, ceiling: nat): Server {
    if target <= s.claimed then s else s.(claimed := ClaimTarget(s.claimed, target, ceiling))
  }

  /** The ratchet is what the authority's claim transaction does to the installation's row. */
  lemma RatchetIsAuthority(db: Db, config: Config, i: InstallationId, caseRow: CaseRow, target: nat)
    ensures var k := (i, caseRow.day);
            var ready := EnsureRow(db, config, i, caseRow);
            var (after, outcome) := ApplyTokenClaim(db, config, i, caseRow, caseRow.day, target);
            && k in ready.incense && k in after.incense
            && var before, row := RowOf(ready.incense[k]), RowOf(after.incense[k]);
            && row == Ratcheted(before, target, config.absurdClaimTokens)
            && row == before.(claimed := row.claimed) && (target <= before.claimed ==> row == before)
            && (target > before.claimed ==> Effects.LargestClaim(before.claimed, target, config.absurdClaimTokens, row.claimed))
            && (outcome.Applied? <==> target > before.claimed)
  {
    hide EnsureRow, Effects.LargestClaim;
    EnsureRowFrame(db, config, i, caseRow);
    Effects.ClaimExactly(db, config, i, caseRow, caseRow.day, target);
  }

  function RowOf(row: IncenseRow): Server { Server(row.claimed, row.starter, row.used, row.tokenPerIncense) }

  // ----- steps -----

  /** `gift` may be granted by any authenticated call; `inFlight` tokens are observed while a round trip is under way. */
  datatype Step =
    | Observe(tokens: nat)
    | ClaimRoundTrip(inFlight: nat, gift: nat, ceiling: nat)
    | BootstrapRoundTrip(inFlight: nat, gift: nat)
    | AdoptPersonal(gift: nat, used: nat)
    | Reconcile
    | Restart
    | ClaimReplyLost(inFlight: nat, gift: nat, ceiling: nat)
    | BootstrapOvertaken(answer: Server)

  function Seen(w: World, tokens: nat): World {
    w.(host := w.host.(local := w.host.local + tokens), observed := w.observed + tokens)
  }

  function Next(w: World, step: Step): World {
    match step
    case Observe(tokens) => Seen(w, tokens)
    case ClaimRoundTrip(inFlight, gift, ceiling) =>
      if !Sends(w.host) then w.(host := NotSent(w.host))
      else
        var target, granted := Target(w.host), Granted(w.server, gift);
        var after := Ratcheted(granted, target, ceiling);
        var arrived := Seen(w, inFlight);
        arrived.(server := after, host := ClaimAnswered(arrived.host, target, after, target > granted.claimed))
    case BootstrapRoundTrip(inFlight, gift) =>
      var after, arrived := Granted(w.server, gift), Seen(w, inFlight);
      arrived.(server := after, host := Bootstrapped(arrived.host, after))
    case AdoptPersonal(gift, used) =>
      var after := Granted(w.server, gift).(used := used);
      w.(server := after, host := w.host.(personal := Some(after)))
    case Reconcile => w.(host := Discarded(w.host))
    case Restart => w.(host := Restarted(w.host))
    case ClaimReplyLost(inFlight, gift, ceiling) =>
      if !Sends(w.host) then w.(host := NotSent(w.host))
      else Seen(w, inFlight).(server := Ratcheted(Granted(w.server, gift), Target(w.host), ceiling))
    case BootstrapOvertaken(answer) => w.(host := Bootstrapped(w.host, answer))
  }

  /** Tables keep used within claimed and the gift inside the claim. */
  predicate RowOk(s: Server) {
    s.tokenPerIncense > 0 && s.used * s.tokenPerIncense <= s.claimed && s.starter <= s.claimed
  }

  /** A run whose round trips complete in order: no reply is lost and no bootstrap is overtaken; a claim or an adopted
      personal state follows a bootstrap; a vote or refresh reports a row that passes the table CHECK. */
  predicate InOrder(w: World, step: Step) {
    match step
    case ClaimRoundTrip(_, _, _) => w.host.personal.Some?
    case AdoptPersonal(gift, used) => w.host.personal.Some? && used * w.server.tokenPerIncense <= w.server.claimed + gift
    case ClaimReplyLost(_, _, _) => false
    case BootstrapOvertaken(_) => false
    case Observe(_) => true
    case BootstrapRoundTrip(_, _) => true
    case Reconcile => true
    case Restart => true
  }

  /** Claimed usage is covered by observed tokens. */
  predicate NotOverclaimed(w: World) { Usage(w.server) <= w.observed }

  /** The host knows a row the server has been in, or none and no baseline, and nothing is over-claimed yet. */
  predicate Sane(w: World) {
    && RowOk(w.server) && NotOverclaimed(w) && w.host.local <= w.observed && w.host.baseline <= w.server.claimed
    && match w.host.personal
       case None => w.host.baseline == 0
       case Some(p) => RowOk(p) && p.claimed <= w.server.claimed && p.starter <= w.server.starter && Usage(p) <= Usage(w.server)
  }

  /** What the next claim would add on top of the claimed usage was observed as well. */
  predicate Covered(w: World) {
    w.host.personal.Some? ==> Usage(w.server) + Suffix(w.host) <= w.observed
  }

  predicate Safe(w: World) { Sane(w) && Covered(w) }

  lemma TargetIsLedgerPlusSuffix(h: Host)
    requires h.personal.Some? && RowOk(h.personal.value)
    ensures Target(h) == h.personal.value.claimed + Suffix(h)
  {
  }

  /** Right after any bootstrap the next target is the gift plus the larger of claimed usage and local total. */
  lemma TargetAfterBootstrap(h: Host, answer: Server)
    requires RowOk(answer)
    ensures Target(Bootstrapped(h, answer)) == answer.starter + Max(Usage(answer), h.local)
  {
  }

  lemma RatchetBounds(s: Server, target: nat, ceiling: nat)
    ensures var after := Ratcheted(s, target, ceiling);
            && s.claimed <= after.claimed && (target > s.claimed ==> s.claimed < after.claimed <= target)
            && after == s.(claimed := after.claimed) && (target <= s.claimed ==> after == s)
  {
  }

  lemma StepKeepsSafe(w: World, step: Step)
    requires Safe(w) && InOrder(w, step)
    ensures Safe(Next(w, step))
  {
    hide Ratcheted;
    match step
    case ClaimRoundTrip(inFlight, gift, ceiling) =>
      RatchetBounds(Granted(w.server, gift), Target(w.host), ceiling);
      TargetIsLedgerPlusSuffix(w.host);
    case _ =>
  }

  function Run(w: World, steps: seq<Step>): World
    decreases |steps|
  {
    if steps == [] then w else Run(Next(w, steps[0]), steps[1..])
  }

  predicate InOrderRun(w: World, steps: seq<Step>)
    decreases |steps|
  {
    steps == [] || (InOrder(w, steps[0]) && InOrderRun(Next(w, steps[0]), steps[1..]))
  }

  function Fresh(tokenPerIncense: nat): World {
    World(Server(0, 0, 0, tokenPerIncense), Host(None, 0, 0, -1), 0)
  }

  lemma {:induction false} RunKeepsSafe(w: World, steps: seq<Step>)
    requires Safe(w) && InOrderRun(w, steps)
    ensures Safe(Run(w, steps))
    decreases |steps|
  {
    if steps != [] {
      StepKeepsSafe(w, steps[0]);
      RunKeepsSafe(Next(w, steps[0]), steps[1..]);
    }
  }

  /** From a fresh row and a fresh host, no run whose round trips complete in order ever over-claims. */
  lemma NeverOverclaims(tokenPerIncense: nat, steps: seq<Step>)
    requires tokenPerIncense > 0 && InOrderRun(Fresh(tokenPerIncense), steps)
    ensures NotOverclaimed(Run(Fresh(tokenPerIncense), steps))
  {
    RunKeepsSafe(Fresh(tokenPerIncense), steps);
  }

  /** Tokens that arrived in flight are recovered by the next bootstrap: a claim after it, uncut and undisturbed, leaves the
      ledger holding the whole local total. */
  lemma BootstrapCatchesUp(w: World, gift: nat)
    requires Safe(w)
    ensures var booted := Next(w, BootstrapRoundTrip(0, gift));
            var claimed := Next(booted, ClaimRoundTrip(0, 0, 0));
            Usage(claimed.server) == Max(Usage(w.server), w.host.local)
  {
    TargetAfterBootstrap(w.host, Granted(w.server, gift));
  }

  // ----- numbers posted, and usage claimed -----

  /** A round trip that completes, fresh usage or an adopted personal state: what lies between two bootstraps of one process. */
  predicate BetweenBootstraps(step: Step) {
    step.Observe? || step.ClaimRoundTrip? || step.AdoptPersonal?
  }

  lemma LastSentRises(w: World, step: Step)
    requires BetweenBootstraps(step)
    ensures Next(w, step).host.lastSent >= w.host.lastSent
    ensures step.ClaimRoundTrip? ==> Next(w, step).host.lastSent >= Target(w.host)
  {
  }

  lemma {:induction false} LastSentNeverFalls(w: World, steps: seq<Step>)
    requires forall step :: step in steps ==> BetweenBootstraps(step)
    ensures Run(w, steps).host.lastSent >= w.host.lastSent
    decreases |steps|
  {
    hide Next, BetweenBootstraps;
    if steps != [] {
      LastSentRises(w, steps[0]);
      LastSentNeverFalls(Next(w, steps[0]), steps[1..]);
    }
  }

  /** Between two bootstraps every number posted is larger than all that were posted or withheld before, whatever was answered. */
  lemma PostsRise(w: World, claim: Step, steps: seq<Step>)
    requires claim.ClaimRoundTrip? && forall step :: step in steps ==> BetweenBootstraps(step)
    requires Sends(Run(Next(w, claim), steps).host)
    ensures Target(Run(Next(w, claim), steps).host) > Target(w.host)
  {
    hide Run, Next;
    LastSentRises(w, claim);
    LastSentNeverFalls(Next(w, claim), steps);
  }

  /** Usage that arrives between claims, and claims that complete at once and are not cut. */
  predicate Prompt(step: Step) {
    step.Observe? || step == ClaimRoundTrip(0, 0, 0)
  }

  function Observed(steps: seq<Step>): nat {
    if steps == [] then 0 else (if steps[0].Observe? then steps[0].tokens else 0) + Observed(steps[1..])
  }

  /** The host knows the server's row, and its baseline lies within the local total and the claim. */
  predicate UpToDate(w: World) {
    w.host.personal == Some(w.server) && RowOk(w.server) && w.host.baseline <= w.host.local && w.host.baseline <= w.server.claimed
    && w.host.lastSent <= w.server.claimed
  }

  /** What a host claimed and what it would still add account for everything it observes, and a claim leaves nothing to add. */
  lemma PromptStepLosesNothing(w: World, step: Step)
    requires UpToDate(w) && Prompt(step)
    ensures var after := Next(w, step);
            && UpToDate(after)
            && Usage(after.server) + Suffix(after.host) == Usage(w.server) + Suffix(w.host) + (if step.Observe? then step.tokens else 0)
            && (step.ClaimRoundTrip? ==> Suffix(after.host) == 0)
  {
    TargetIsLedgerPlusSuffix(w.host);
  }

  lemma {:induction false} PromptRunLosesNothing(w: World, steps: seq<Step>)
    requires UpToDate(w) && forall step :: step in steps ==> Prompt(step)
    ensures var after := Run(w, steps);
            UpToDate(after) && Usage(after.server) + Suffix(after.host) == Usage(w.server) + Suffix(w.host) + Observed(steps)
    decreases |steps|
  {
    hide Next, UpToDate, Prompt, Suffix, Usage;
    if steps != [] {
      PromptStepLosesNothing(w, steps[0]);
      PromptRunLosesNothing(Next(w, steps[0]), steps[1..]);
    }
  }

  /** After a bootstrap, through any prompt run, the next claim brings the claimed usage to the larger of what was claimed and what
      the host held, plus everything observed since. */
  lemma ClaimsKeepUp(w: World, inFlight: nat, gift: nat, steps: seq<Step>)
    requires RowOk(w.server) && forall step :: step in steps ==> Prompt(step)
    ensures var booted := Next(w, BootstrapRoundTrip(inFlight, gift));
            var claimed := Next(Run(booted, steps), ClaimRoundTrip(0, 0, 0));
            Usage(claimed.server) == Max(Usage(w.server), w.host.local + inFlight) + Observed(steps)
  {
    hide Run;
    var booted := Next(w, BootstrapRoundTrip(inFlight, gift));
    assert RowOk(booted.server) by { assert w.server.used * w.server.tokenPerIncense <= w.server.claimed; }
    PromptRunLosesNothing(booted, steps);
    PromptStepLosesNothing(Run(booted, steps), ClaimRoundTrip(0, 0, 0));
  }

  // ----- where the order matters -----

  /** Some continuation whose own round trips complete in order claims more than was observed. */
  ghost predicate Doomed(w: World) {
    exists steps :: InOrderRun(w, steps) && !NotOverclaimed(Run(w, steps))
  }

  /** The invariant is exact: short of it an over-claim is a refresh, some more usage and a claim away. */
  lemma DoomedExactly(w: World)
    requires Sane(w)
    ensures Doomed(w) <==> !Covered(w)
  {
    if Covered(w) {
      forall steps | InOrderRun(w, steps) ensures NotOverclaimed(Run(w, steps)) {
        RunKeepsSafe(w, steps);
      }
    } else {
      var more := Max(0, w.host.lastSent + 1);
      UncoveredOverclaims(w, more);
      var steps := [AdoptPersonal(0, w.server.used), Observe(more), ClaimRoundTrip(0, 0, 0)];
      assert InOrderRun(w, steps) && !NotOverclaimed(Run(w, steps));
    }
  }

  lemma UncoveredOverclaims(w: World, more: nat)
    requires Sane(w) && !Covered(w) && more > w.host.lastSent
    ensures var steps := [AdoptPersonal(0, w.server.used), Observe(more), ClaimRoundTrip(0, 0, 0)];
            InOrderRun(w, steps) && !NotOverclaimed(Run(w, steps))
  {
    var a, b, c := AdoptPersonal(0, w.server.used), Observe(more), ClaimRoundTrip(0, 0, 0);
    RunThree(w, a, b, c);
    var w1 := Next(w, a);
    assert w1 == w.(host := w.host.(personal := Some(w.server)));
    var w2 := Next(w1, b);
    TargetIsLedgerPlusSuffix(w2.host);
    assert Suffix(w2.host) == Suffix(w.host) + more;
    assert Sends(w2.host);
    var w3 := Next(w2, c);
    assert w3.server.claimed == w.server.claimed + Suffix(w.host) + more;
  }

  lemma RunThree(w: World, a: Step, b: Step, c: Step)
    ensures Run(w, [a, b, c]) == Next(Next(Next(w, a), b), c)
    ensures InOrderRun(w, [a, b, c]) <==> InOrder(w, a) && InOrder(Next(w, a), b) && InOrder(Next(Next(w, a), b), c)
  {
    hide Next, InOrder;
    var steps := [a, b, c];
    assert steps[1..] == [b, c] && [b, c][1..] == [c] && [c][1..] == [];
    assert Run(Next(Next(w, a), b), [c]) == Next(Next(Next(w, a), b), c);
    assert Run(Next(w, a), [b, c]) == Run(Next(Next(w, a), b), [c]);
    assert InOrderRun(Next(Next(w, a), b), [c]) <==> InOrder(Next(Next(w, a), b), c);
    assert InOrderRun(Next(w, a), [b, c]) <==> InOrder(Next(w, a), b) && InOrderRun(Next(Next(w, a), b), [c]);
  }

  /** A bootstrap that completes makes any sane world safe. */
  lemma BootstrapMakesSafe(w: World, inFlight: nat, gift: nat)
    requires Sane(w)
    ensures Safe(Next(w, BootstrapRoundTrip(inFlight, gift)))
  {
  }

  lemma FaultKeepsSane(w: World, fault: Step)
    requires Safe(w) && w.host.personal.Some?
    requires fault.ClaimReplyLost? || (fault.BootstrapOvertaken? && Older(fault.answer, w.server))
    ensures Sane(Next(w, fault)) && ViewCovered(Next(w, fault))
  {
    hide Ratcheted;
    if fault.ClaimReplyLost? {
      RatchetBounds(Granted(w.server, fault.gift), Target(w.host), fault.ceiling);
      TargetIsLedgerPlusSuffix(w.host);
    }
  }

  /** A lost reply and an overtaken bootstrap leave claimed usage covered themselves, and a bootstrap repairs them. */
  lemma FaultsAreRepairedByBootstrap(w: World, fault: Step, inFlight: nat, gift: nat)
    requires Safe(w) && w.host.personal.Some?
    requires fault.ClaimReplyLost? || (fault.BootstrapOvertaken? && Older(fault.answer, w.server))
    ensures NotOverclaimed(Next(w, fault))
    ensures Safe(Next(Next(w, fault), BootstrapRoundTrip(inFlight, gift)))
  {
    hide Next;
    FaultKeepsSane(w, fault);
    BootstrapMakesSafe(Next(w, fault), inFlight, gift);
  }

  /** An answer the server gave earlier: claims and gifts have only been added since. */
  predicate Older(answer: Server, now: Server) {
    RowOk(answer) && answer.claimed <= now.claimed && answer.starter <= now.starter && Usage(answer) <= Usage(now)
  }

  /** The row the host knows, with what the host would add to it, was observed. */
  predicate ViewCovered(w: World) {
    w.host.personal.Some? ==> Usage(w.host.personal.value) + Suffix(w.host) <= w.observed
  }

  /** Is the number the host would post above what the server will hold when the gift is in? */
  predicate WillApply(w: World, gift: nat) {
    Sends(w.host) && Target(w.host) > w.server.claimed + gift
  }

  /** Without a bootstrap a claim repairs exactly by being applied, whatever arrives in flight, is granted or cut off. */
  lemma ClaimRepairsExactly(w: World, inFlight: nat, gift: nat, ceiling: nat)
    requires Sane(w) && ViewCovered(w) && w.host.personal.Some?
    ensures Sane(Next(w, ClaimRoundTrip(inFlight, gift, ceiling)))
    ensures Doomed(Next(w, ClaimRoundTrip(inFlight, gift, ceiling))) <==> Doomed(w) && !WillApply(w, gift)
  {
    hide Ratcheted, Doomed;
    RatchetBounds(Granted(w.server, gift), Target(w.host), ceiling);
    TargetIsLedgerPlusSuffix(w.host);
    var after := Next(w, ClaimRoundTrip(inFlight, gift, ceiling));
    assert Sane(after) && (Covered(after) <==> Covered(w) || WillApply(w, gift));
    DoomedExactly(w);
    DoomedExactly(after);
  }

  /** What the server gained from a posted claim. */
  function Gain(w: World, gift: nat, ceiling: nat): nat {
    var granted := Granted(w.server, gift);
    RatchetBounds(granted, Target(w.host), ceiling);
    Ratcheted(granted, Target(w.host), ceiling).claimed - granted.claimed
  }

  /** Observed tokens that are neither claimed nor about to be. */
  function Slack(w: World): int { w.observed - Usage(w.server) - Suffix(w.host) }

  /** After a lost reply an over-claim is possible exactly when the claim gained more than the slack, and the next claim
      averts it exactly by being applied. */
  lemma AfterLostReply(w: World, inFlight: nat, gift: nat, ceiling: nat, inFlight': nat, gift': nat, ceiling': nat)
    requires Safe(w) && w.host.personal.Some? && Sends(w.host)
    ensures var lost := Next(w, ClaimReplyLost(inFlight, gift, ceiling));
            && (Doomed(lost) <==> Gain(w, gift, ceiling) > Slack(w))
            && (Doomed(Next(lost, ClaimRoundTrip(inFlight', gift', ceiling'))) <==>
                  Gain(w, gift, ceiling) > Slack(w) && !WillApply(lost, gift'))
  {
    hide Ratcheted, Doomed;
    var lost := Next(w, ClaimReplyLost(inFlight, gift, ceiling));
    RatchetBounds(Granted(w.server, gift), Target(w.host), ceiling);
    TargetIsLedgerPlusSuffix(w.host);
    FaultKeepsSane(w, ClaimReplyLost(inFlight, gift, ceiling));
    DoomedExactly(lost);
    ClaimRepairsExactly(lost, inFlight', gift', ceiling');
  }

  /** A claim before the first bootstrap makes an over-claim possible exactly when it is posted, refused, and the claimed
      usage and the local total together exceed what was observed. */
  lemma ClaimBeforeBootstrap(w: World, inFlight: nat, gift: nat, ceiling: nat)
    requires Sane(w) && w.host.personal.None?
    ensures Doomed(Next(w, ClaimRoundTrip(inFlight, gift, ceiling))) <==>
              && Sends(w.host) && !WillApply(w, gift)
              && Usage(w.server) + w.host.local > w.observed
  {
    hide Ratcheted, Doomed;
    RatchetBounds(Granted(w.server, gift), Target(w.host), ceiling);
    DoomedExactly(Next(w, ClaimRoundTrip(inFlight, gift, ceiling)));
  }

  /** Adopting an older bootstrap makes an over-claim possible exactly when the local total reaches beyond the usage it
      knows and what it missed exceeds what was observed and discarded. */
  lemma AfterOvertakenBootstrap(w: World, answer: Server)
    requires Sane(w) && Older(answer, w.server)
    ensures Doomed(Next(w, BootstrapOvertaken(answer))) <==>
              w.host.local > Usage(answer) && Usage(w.server) - Usage(answer) > w.observed - w.host.local
  {
    hide Doomed;
    DoomedExactly(Next(w, BootstrapOvertaken(answer)));
  }

  /** The over-claim itself: 100 tokens observed, 200 claimed. The reply of the first claim is lost, the second is refused
      and keeps the stale baseline, the third adds the same 100 again. */
  lemma LostReplyOverclaims()
    ensures var run := Run(Fresh(10), [BootstrapRoundTrip(0, 0), Observe(100), ClaimReplyLost(0, 0, 0), ClaimRoundTrip(0, 0, 0), ClaimRoundTrip(0, 0, 0)]);
            run.observed == 100 && Usage(run.server) == 200
  {
    RunFive(Fresh(10), BootstrapRoundTrip(0, 0), Observe(100), ClaimReplyLost(0, 0, 0), ClaimRoundTrip(0, 0, 0), ClaimRoundTrip(0, 0, 0));
    var w2 := Next(Next(Fresh(10), BootstrapRoundTrip(0, 0)), Observe(100));
    assert w2 == World(Server(0, 0, 0, 10), Host(Some(Server(0, 0, 0, 10)), 100, 0, -1), 100);
    var w3 := Next(w2, ClaimReplyLost(0, 0, 0));
    assert w3 == w2.(server := Server(100, 0, 0, 10));
    var w4 := Next(w3, ClaimRoundTrip(0, 0, 0));
    assert w4 == World(Server(100, 0, 0, 10), Host(Some(Server(100, 0, 0, 10)), 100, 0, 100), 100);
  }

  /** 100 tokens on the ledger. */
  lemma Claimed100()
    ensures var booted := Next(Fresh(10), BootstrapRoundTrip(0, 0));
            && booted == World(Server(0, 0, 0, 10), Host(Some(Server(0, 0, 0, 10)), 0, 0, -1), 0)
            && Next(Next(booted, Observe(100)), ClaimRoundTrip(0, 0, 0))
               == World(Server(100, 0, 0, 10), Host(Some(Server(100, 0, 0, 10)), 100, 100, 100), 100)
  {
  }

  /** The same when a bootstrap that was read before the first claim arrives after it. */
  lemma OvertakenBootstrapOverclaims()
    ensures var booted := Next(Fresh(10), BootstrapRoundTrip(0, 0));
            var run := Run(booted, [Observe(100), ClaimRoundTrip(0, 0, 0), BootstrapOvertaken(booted.server),
                                    ClaimRoundTrip(0, 0, 0), ClaimRoundTrip(0, 0, 0)]);
            run.observed == 100 && Usage(run.server) == 200
  {
    Claimed100();
    var empty := Server(0, 0, 0, 10);
    var w1 := Next(Fresh(10), BootstrapRoundTrip(0, 0));
    RunFive(w1, Observe(100), ClaimRoundTrip(0, 0, 0), BootstrapOvertaken(empty), ClaimRoundTrip(0, 0, 0), ClaimRoundTrip(0, 0, 0));
    var w3 := Next(Next(w1, Observe(100)), ClaimRoundTrip(0, 0, 0));
    var w4 := Next(w3, BootstrapOvertaken(empty));
    assert w4 == World(Server(100, 0, 0, 10), Host(Some(empty), 100, 0, -1), 100);
    var w5 := Next(w4, ClaimRoundTrip(0, 0, 0));
    assert w5 == World(Server(100, 0, 0, 10), Host(Some(Server(100, 0, 0, 10)), 100, 0, 100), 100);
  }

  /** And when a restarted host claims twice before its first bootstrap. */
  lemma ClaimBeforeBootstrapOverclaims()
    ensures var booted := Next(Fresh(10), BootstrapRoundTrip(0, 0));
            var run := Run(booted, [Observe(100), ClaimRoundTrip(0, 0, 0), Restart, ClaimRoundTrip(0, 0, 0), ClaimRoundTrip(0, 0, 0)]);
            run.observed == 100 && Usage(run.server) == 200
  {
    Claimed100();
    var w1 := Next(Fresh(10), BootstrapRoundTrip(0, 0));
    RunFive(w1, Observe(100), ClaimRoundTrip(0, 0, 0), Restart, ClaimRoundTrip(0, 0, 0), ClaimRoundTrip(0, 0, 0));
    var w3 := Next(Next(w1, Observe(100)), ClaimRoundTrip(0, 0, 0));
    var w4 := Next(w3, Restart);
    assert w4 == World(Server(100, 0, 0, 10), Host(None, 100, 0, -1), 100);
    var w5 := Next(w4, ClaimRoundTrip(0, 0, 0));
    assert w5 == World(Server(100, 0, 0, 10), Host(Some(Server(100, 0, 0, 10)), 100, 0, 100), 100);
  }

  lemma RunFive(w: World, a: Step, b: Step, c: Step, d: Step, e: Step)
    ensures Run(w, [a, b, c, d, e]) == Next(Next(Next(Next(Next(w, a), b), c), d), e)
  {
    hide Next;
    var steps := [a, b, c, d, e];
    assert steps[1..] == [b, c, d, e] && steps[1..][1..] == [c, d, e] && steps[1..][1..][1..] == [d, e] && steps[1..][1..][1..][1..] == [e];
    assert steps[1..][1..][1..][1..][1..] == [];
    var w1 := Next(w, a);
    var w2 := Next(w1, b);
    var w3 := Next(w2, c);
    var w4 := Next(w3, d);
    assert Run(w4, [e]) == Next(w4, e);
    assert Run(w3, [d, e]) == Run(w4, [e]);
    assert Run(w2, [c, d, e]) == Run(w3, [d, e]);
    assert Run(w1, [b, c, d, e]) == Run(w2, [c, d, e]);
  }

  // ----- the host object -----

  /** The claim side of the host service. Where the service awaits a reply, a method ends and the reply starts another. */
  class ClaimHost {
    var personal: Option<Server>
    var local: nat
    var displayBaseline: nat
    var lastClaimSent: int

    function View(): Host
      reads this
    {
      Host(personal, local, displayBaseline, lastClaimSent)
    }

    constructor ()
      ensures View() == Host(None, 0, 0, -1)
    {
      personal, local, displayBaseline, lastClaimSent := None, 0, 0, -1;
    }

    method Observe(tokens: nat)
      modifies this
      ensures View() == old(View()).(local := old(local) + tokens)
    {
      local := local + tokens;
    }

    /** The number to post, if any. */
    method SubmitClaim() returns (post: Option<nat>)
      modifies this
      ensures post == if Sends(old(View())) then Some(Target(old(View()))) else None
      ensures post.Some? <==> Target(View()) > lastClaimSent && (personal.Some? ==> Target(View()) > personal.value.claimed)
      ensures post.None? ==> lastClaimSent >= Target(View())
      ensures lastClaimSent >= old(lastClaimSent) && View() == old(View()).(lastSent := lastClaimSent)
      ensures View() == if Sends(old(View())) then old(View()) else NotSent(old(View()))
    {
      var ledger := if personal.Some? then personal.value.claimed else 0;
      var target := ClaimableEffectiveTokens(personal, local, displayBaseline);
      if personal.Some? && target <= ledger {
        lastClaimSent := Max(lastClaimSent, target);
        return None;
      }
      if target <= lastClaimSent { return None; }
      post := Some(target);
    }

    /** The reply of a posted claim for the same business date. */
    method ClaimReturned(target: nat, answer: Server, applied: bool)
      modifies this
      ensures View() == ClaimAnswered(old(View()), target, answer, applied)
    {
      personal := Some(answer);
      if !applied {
        lastClaimSent := Max(lastClaimSent, Min(target, answer.claimed));
      } else {
        lastClaimSent := target;
        displayBaseline := Min(local, answer.claimed);
      }
    }

    method SyncDisplayBaselineFromLedger()
      modifies this
      ensures View() == old(View()).(baseline := BaselineFromLedger(old(personal), old(local)))
    {
      var claimed := if personal.Some? then personal.value.claimed else 0;
      var starter := if personal.Some? then personal.value.starter else 0;
      displayBaseline := Min(Max(0, claimed - starter), local);
    }

    method AdoptBootstrap(answer: Server)
      modifies this
      ensures View() == Bootstrapped(old(View()), answer)
      ensures personal == Some(answer) && local == old(local) && lastClaimSent == -1
    {
      hide BaselineFromLedger;
      personal, lastClaimSent := Some(answer), -1;
      SyncDisplayBaselineFromLedger();
    }

    method DiscardDailyTotals()
      modifies this
      ensures View() == Discarded(old(View()))
      ensures local == 0 && displayBaseline == 0 && lastClaimSent == -1 && personal == old(personal)
    {
      local, lastClaimSent, displayBaseline := 0, -1, 0;
    }
  }
}
